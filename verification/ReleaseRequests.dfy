/** What the log of the table protocol says, in terms of what the threads asked for: every outcome goes back to
    one event of the run, with its address, its thread's subgroup and the epoch of that moment, and every event
    comes to one outcome. */
module ReleaseRequests {
  import opened ReleaseTable
  import opened ReleaseTableTheorems
  import opened ReleaseTableExact

  ghost function Barriers(evs: seq<Event>): nat {
    if evs == [] then 0 else Barriers(evs[..|evs| - 1]) + if evs[|evs| - 1].Barrier? then 1 else 0
  }

  /** Before event n, thread t's fence was last armed by event m and not consumed since. */
  ghost predicate ArmedSince(past: seq<Event>, t: nat, m: nat, n: nat) {
    && m < n <= |past| && past[m] == ArmFence(t)
    && forall i :: m < i < n ==> past[i] != ArmFence(t) && !(past[i].BeginFenced? && past[i].t == t)
  }

  /** Event n asks to release key k with epoch e: the epoch of the moment, or the one its fence was armed in. */
  ghost predicate ReleaseAsked(cfg: Config, past: seq<Event>, k: Key, e: nat, n: nat) {
    && n < |past| && (past[n].BeginRelease? || past[n].BeginFenced?)
    && past[n].t < |cfg.group| && k == Key(past[n].addr, cfg.group[past[n].t])
    && if past[n].BeginRelease? then e == Barriers(past[..n])
       else exists m: nat :: ArmedSince(past, past[n].t, m, n) && e == Barriers(past[..m])
  }

  ghost predicate SomeRelease(cfg: Config, past: seq<Event>, k: Key, e: nat) {
    exists n: nat :: ReleaseAsked(cfg, past, k, e, n)
  }

  /** Event n asks for an acquire, when the log is `begin` long. */
  ghost predicate AcquireAsked(cfg: Config, s: State, past: seq<Event>, consumer: nat, addr: nat, begin: nat, n: nat) {
    && n < |past| && past[n].BeginAcquire? && past[n].t < |cfg.group|
    && consumer == cfg.group[past[n].t] && addr == past[n].addr && LogLength(cfg, s, past[..n], begin)
  }

  ghost predicate LogLength(cfg: Config, s: State, evs: seq<Event>, length: nat) {
    exists mid :: Reaches(cfg, s, evs, mid) && |mid.log| == length
  }

  ghost predicate SomeAcquire(cfg: Config, s: State, past: seq<Event>, consumer: nat, addr: nat, begin: nat) {
    exists n: nat :: AcquireAsked(cfg, s, past, consumer, addr, begin, n)
  }

  ghost predicate FenceAsked(past: seq<Event>, t: nat, fence: nat) {
    fence == 0 || exists m: nat :: ArmedSince(past, t, m, |past|) && fence == Barriers(past[..m]) + 1
  }

  ghost predicate ThreadAsked(cfg: Config, s: State, past: seq<Event>, th: Thread) {
    match th
    case Idle => true
    case Releasing(r, _) => SomeRelease(cfg, past, r.key, r.epoch)
    case Acquiring(q, _) => SomeAcquire(cfg, s, past, q.consumer, q.addr, q.begin)
  }

  ghost predicate EntryAsked(cfg: Config, s: State, past: seq<Event>, entry: Entry) {
    match entry
    case Recorded(k, e) => SomeRelease(cfg, past, k, e)
    case Published(k, e) => SomeRelease(cfg, past, k, e)
    case Dropped(k) => exists e: nat :: SomeRelease(cfg, past, k, e)
    case Missed(k, begin) => exists c: nat :: SomeAcquire(cfg, s, past, c, k.addr, begin)
    case Imported(c, k, _) => exists begin: nat :: SomeAcquire(cfg, s, past, c, k.addr, begin)
    case Acquired(c, a, begin) => SomeAcquire(cfg, s, past, c, a, begin)
  }

  /** `x`, reached from `s` by `past`, holds nothing that was not asked for. */
  ghost predicate AllAsked(cfg: Config, s: State, past: seq<Event>, x: State) {
    && Reaches(cfg, s, past, x)
    && (forall g :: 0 <= g < |x.epochs| ==> x.epochs[g] == Barriers(past))
    && (forall t :: 0 <= t < |x.fences| ==> FenceAsked(past, t, x.fences[t]))
    && (forall t :: 0 <= t < |x.threads| ==> ThreadAsked(cfg, s, past, x.threads[t]))
    && (forall j :: 0 <= j < |x.log| ==> EntryAsked(cfg, s, past, x.log[j]))
  }

  // ---------------------------------------------------------------- more events take nothing back

  lemma ReleaseStillAsked(cfg: Config, past: seq<Event>, ev: Event, k: Key, e: nat)
    requires SomeRelease(cfg, past, k, e)
    ensures SomeRelease(cfg, past + [ev], k, e)
  {
    var n: nat :| ReleaseAsked(cfg, past, k, e, n);
    assert (past + [ev])[..n] == past[..n];
    if past[n].BeginFenced? {
      var m: nat :| ArmedSince(past, past[n].t, m, n) && e == Barriers(past[..m]);
      assert (past + [ev])[..m] == past[..m];
      assert ArmedSince(past + [ev], past[n].t, m, n);
    }
    assert ReleaseAsked(cfg, past + [ev], k, e, n);
  }

  lemma AcquireStillAsked(cfg: Config, s: State, past: seq<Event>, ev: Event, c: nat, a: nat, begin: nat)
    requires SomeAcquire(cfg, s, past, c, a, begin)
    ensures SomeAcquire(cfg, s, past + [ev], c, a, begin)
  {
    hide LogLength;
    var n: nat :| AcquireAsked(cfg, s, past, c, a, begin, n);
    assert (past + [ev])[..n] == past[..n];
    assert AcquireAsked(cfg, s, past + [ev], c, a, begin, n);
  }

  lemma ThreadStillAsked(cfg: Config, s: State, past: seq<Event>, ev: Event, th: Thread)
    requires ThreadAsked(cfg, s, past, th)
    ensures ThreadAsked(cfg, s, past + [ev], th)
  {
    hide SomeRelease, SomeAcquire;
    match th
    case Idle =>
    case Releasing(r, _) => ReleaseStillAsked(cfg, past, ev, r.key, r.epoch);
    case Acquiring(q, _) => AcquireStillAsked(cfg, s, past, ev, q.consumer, q.addr, q.begin);
  }

  lemma EntryStillAsked(cfg: Config, s: State, past: seq<Event>, ev: Event, entry: Entry)
    requires EntryAsked(cfg, s, past, entry)
    ensures EntryAsked(cfg, s, past + [ev], entry)
  {
    hide SomeRelease, SomeAcquire;
    match entry
    case Recorded(k, e) => ReleaseStillAsked(cfg, past, ev, k, e);
    case Published(k, e) => ReleaseStillAsked(cfg, past, ev, k, e);
    case Dropped(k) =>
      var e: nat :| SomeRelease(cfg, past, k, e);
      ReleaseStillAsked(cfg, past, ev, k, e);
    case Missed(k, begin) =>
      var c: nat :| SomeAcquire(cfg, s, past, c, k.addr, begin);
      AcquireStillAsked(cfg, s, past, ev, c, k.addr, begin);
    case Imported(c, k, _) =>
      var begin: nat :| SomeAcquire(cfg, s, past, c, k.addr, begin);
      AcquireStillAsked(cfg, s, past, ev, c, k.addr, begin);
    case Acquired(c, a, begin) => AcquireStillAsked(cfg, s, past, ev, c, a, begin);
  }

  lemma FenceStillAsked(past: seq<Event>, ev: Event, t: nat, fence: nat)
    requires FenceAsked(past, t, fence) && ev != ArmFence(t) && !(ev.BeginFenced? && ev.t == t)
    ensures FenceAsked(past + [ev], t, fence)
  {
    if fence != 0 {
      var m: nat :| ArmedSince(past, t, m, |past|) && fence == Barriers(past[..m]) + 1;
      assert (past + [ev])[..m] == past[..m];
      assert ArmedSince(past + [ev], t, m, |past + [ev]|);
    }
  }

  // ---------------------------------------------------------------- one more event

  lemma ArmAsked(past: seq<Event>, t: nat)
    ensures FenceAsked(past + [ArmFence(t)], t, Barriers(past) + 1)
  {
    var ev := ArmFence(t);
    assert (past + [ev])[..|past|] == past;
    assert ArmedSince(past + [ev], t, |past|, |past + [ev]|);
  }

  lemma BeginAsked(cfg: Config, s: State, past: seq<Event>, x: State, ev: Event)
    requires AllAsked(cfg, s, past, x) && Enabled(x, ev)
    requires ev.BeginRelease? || ev.BeginFenced? || ev.BeginAcquire?
    ensures ThreadAsked(cfg, s, past + [ev], Step(cfg, x, ev).threads[ev.t])
  {
    hide Reaches;
    Shaped(cfg, s, past, x);
    var past' := past + [ev];
    assert past'[..|past|] == past;
    var th := Step(cfg, x, ev).threads[ev.t];
    if ev.BeginAcquire? {
      assert LogLength(cfg, s, past, |x.log|);
      assert AcquireAsked(cfg, s, past', th.acquire.consumer, th.acquire.addr, th.acquire.begin, |past|);
    } else {
      if ev.BeginFenced? {
        assert FenceAsked(past, ev.t, x.fences[ev.t]);
        var m: nat :| ArmedSince(past, ev.t, m, |past|) && x.fences[ev.t] == Barriers(past[..m]) + 1;
        assert past'[..m] == past[..m];
        assert ArmedSince(past', ev.t, m, |past|);
      }
      assert ReleaseAsked(cfg, past', th.release.key, th.release.epoch, |past|);
    }
  }

  /** A tick logs outcomes of its own thread's request only. */
  ghost predicate OwnOutcome(cfg: Config, s: State, past: seq<Event>, x: State, x': State, t: nat)
    requires t < |x.threads|
  {
    && |x'.threads| == |x.threads| && x'.threads == x.threads[t := x'.threads[t]]
    && x'.epochs == x.epochs && x'.fences == x.fences && ThreadAsked(cfg, s, past, x'.threads[t])
    && (x'.log == x.log
        || (|x.log| < |x'.log| && x'.log == x.log + [x'.log[|x.log|]]
            && EntryAsked(cfg, s, past, x'.log[|x.log|])))
  }

  lemma ReleaseTickAsked(cfg: Config, s: State, past: seq<Event>, x: State, t: nat)
    requires Shape(cfg, x) && t < |x.threads| && x.threads[t].Releasing? && ThreadAsked(cfg, s, past, x.threads[t])
    ensures OwnOutcome(cfg, s, past, x, ReleaseStep(cfg, x, t), t)
  {
    hide SomeRelease, SomeAcquire;
    var r := x.threads[t].release;
    assert SomeRelease(cfg, past, r.key, r.epoch);
  }

  lemma AcquireTickAsked(cfg: Config, s: State, past: seq<Event>, x: State, t: nat)
    requires Shape(cfg, x) && t < |x.threads| && x.threads[t].Acquiring? && ThreadAsked(cfg, s, past, x.threads[t])
    ensures OwnOutcome(cfg, s, past, x, AcquireStep(cfg, x, t), t)
  {
    hide SomeRelease, SomeAcquire;
    var q := x.threads[t].acquire;
    assert SomeAcquire(cfg, s, past, q.consumer, q.addr, q.begin);
    assert Key(q.addr, q.producer).addr == q.addr;
  }

  lemma TickAsked(cfg: Config, s: State, past: seq<Event>, x: State, t: nat)
    requires Shape(cfg, x) && Enabled(x, Tick(t)) && ThreadAsked(cfg, s, past, x.threads[t])
    ensures OwnOutcome(cfg, s, past, x, Step(cfg, x, Tick(t)), t)
  {
    hide ReleaseStep, AcquireStep, OwnOutcome;
    if x.threads[t].Releasing? { ReleaseTickAsked(cfg, s, past, x, t); } else { AcquireTickAsked(cfg, s, past, x, t); }
  }

  lemma StepAsked(cfg: Config, s: State, past: seq<Event>, x: State, ev: Event)
    requires AllAsked(cfg, s, past, x) && Enabled(x, ev)
    ensures AllAsked(cfg, s, past + [ev], Step(cfg, x, ev))
  {
    hide Reaches, ThreadAsked, EntryAsked, FenceAsked, ReleaseStep, AcquireStep;
    Shaped(cfg, s, past, x);
    var past', x' := past + [ev], Step(cfg, x, ev);
    StepShape(cfg, x, ev);
    Then(cfg, s, past, x, ev);
    assert past'[..|past|] == past;
    if ev.Tick? { TickAsked(cfg, s, past, x, ev.t); }
    forall t | 0 <= t < |x'.fences| ensures FenceAsked(past', t, x'.fences[t]) {
      if ev == ArmFence(t) {
        ArmAsked(past, t);
      } else if ev.BeginFenced? && ev.t == t {
        NoFence(past', t);
      } else {
        FenceStillAsked(past, ev, t, x.fences[t]);
      }
    }
    forall t | 0 <= t < |x'.threads| ensures ThreadAsked(cfg, s, past', x'.threads[t]) {
      if (ev.BeginRelease? || ev.BeginFenced? || ev.BeginAcquire?) && ev.t == t {
        BeginAsked(cfg, s, past, x, ev);
      } else {
        ThreadStillAsked(cfg, s, past, ev, x'.threads[t]);
      }
    }
    forall j | 0 <= j < |x'.log| ensures EntryAsked(cfg, s, past', x'.log[j]) {
      EntryStillAsked(cfg, s, past, ev, x'.log[j]);
    }
  }

  lemma NoFence(past: seq<Event>, t: nat)
    ensures FenceAsked(past, t, 0)
  {
  }

  lemma Shaped(cfg: Config, s: State, past: seq<Event>, x: State)
    requires Reaches(cfg, s, past, x)
    ensures Shape(cfg, x)
  {
  }

  lemma {:induction false} RunAsked(cfg: Config, s: State, past: seq<Event>, x: State, evs: seq<Event>)
    requires Shape(cfg, x) && AllAsked(cfg, s, past, x) && Runnable(cfg, x, evs)
    ensures AllAsked(cfg, s, past + evs, Run(cfg, x, evs))
    decreases |evs|
  {
    hide AllAsked, Step, Enabled, Shape;
    if evs == [] {
      assert past + evs == past;
    } else {
      StepShape(cfg, x, evs[0]);
      StepAsked(cfg, s, past, x, evs[0]);
      RunAsked(cfg, s, past + [evs[0]], Step(cfg, x, evs[0]), evs[1..]);
      assert past + [evs[0]] + evs[1..] == past + evs;
    }
  }

  /** Nothing in the log is made up. In every run, what is recorded or published was asked for by a release, or a
      fenced store, of a thread of that subgroup at that address, with the epoch of that moment, or of the moment
      its fence was last armed; what is dropped was asked for too; and every acquire that ends, every import and
      every miss goes back to an acquire that a thread of that subgroup began at that address when the log was as
      long as the entry says. */
  lemma OutcomesAreAskedFor(cfg: Config, s: State, evs: seq<Event>)
    requires Init(cfg, s) && Runnable(cfg, s, evs)
    ensures forall j :: 0 <= j < |Run(cfg, s, evs).log| ==> EntryAsked(cfg, s, evs, Run(cfg, s, evs).log[j])
  {
    assert Reaches(cfg, s, [], s);
    RunAsked(cfg, s, [], s, evs);
    assert [] + evs == evs;
  }

  // ---------------------------------------------------------------- one outcome each

  ghost function Releases(evs: seq<Event>): nat {
    if evs == [] then 0 else Releases(evs[1..]) + if evs[0].BeginRelease? || evs[0].BeginFenced? then 1 else 0
  }

  ghost function Acquires(evs: seq<Event>): nat {
    if evs == [] then 0 else Acquires(evs[1..]) + if evs[0].BeginAcquire? then 1 else 0
  }

  ghost function Settled(log: seq<Entry>): nat {
    if log == [] then 0
    else Settled(log[..|log| - 1]) + if log[|log| - 1].Published? || log[|log| - 1].Dropped? then 1 else 0
  }

  ghost function Finished(log: seq<Entry>): nat {
    if log == [] then 0 else Finished(log[..|log| - 1]) + if log[|log| - 1].Acquired? then 1 else 0
  }

  ghost function Weight(th: Thread, releasing: bool): nat {
    if (if releasing then th.Releasing? else th.Acquiring?) then 1 else 0
  }

  ghost function InFlight(threads: seq<Thread>, releasing: bool): nat {
    if threads == [] then 0
    else InFlight(threads[..|threads| - 1], releasing) + Weight(threads[|threads| - 1], releasing)
  }

  lemma {:induction false} InFlightUpdate(threads: seq<Thread>, t: nat, th: Thread, releasing: bool)
    requires t < |threads|
    ensures InFlight(threads[t := th], releasing) + Weight(threads[t], releasing)
         == InFlight(threads, releasing) + Weight(th, releasing)
  {
    var k := |threads| - 1;
    if t < k {
      InFlightUpdate(threads[..k], t, th, releasing);
      assert threads[t := th][..k] == threads[..k][t := th];
    } else {
      assert threads[t := th][..k] == threads[..k];
    }
  }

  lemma {:induction false} NobodyInFlight(threads: seq<Thread>, releasing: bool)
    requires AllQuiet(threads)
    ensures InFlight(threads, releasing) == 0
  {
    if threads != [] { NobodyInFlight(threads[..|threads| - 1], releasing); }
  }

  ghost predicate AllQuiet(threads: seq<Thread>) { forall t :: 0 <= t < |threads| ==> threads[t].Idle? }

  /** What a tick adds to the log is the end of its request exactly if the thread becomes idle. */
  lemma TickSettles(cfg: Config, x: State, t: nat)
    requires Shape(cfg, x) && Enabled(x, Tick(t))
    ensures var x' := Step(cfg, x, Tick(t));
            && x'.threads == x.threads[t := x'.threads[t]]
            && (x'.log == x.log || x'.log == x.log + [x'.log[|x.log|]])
            && Settled(x'.log) + Weight(x'.threads[t], true) == Settled(x.log) + Weight(x.threads[t], true)
            && Finished(x'.log) + Weight(x'.threads[t], false) == Finished(x.log) + Weight(x.threads[t], false)
  {
    hide Settled, Finished;
    if x.threads[t].Releasing? {
      ReleaseLogs(cfg, x, t);
    } else {
      AcquireLogs(cfg, x, t);
    }
  }

  lemma LogOneMore(log: seq<Entry>, entry: Entry)
    ensures Settled(log + [entry]) == Settled(log) + if entry.Published? || entry.Dropped? then 1 else 0
    ensures Finished(log + [entry]) == Finished(log) + if entry.Acquired? then 1 else 0
  {
    assert (log + [entry])[..|log|] == log;
  }

  lemma ReleaseLogs(cfg: Config, x: State, t: nat)
    requires Shape(cfg, x) && t < |x.threads| && x.threads[t].Releasing?
    ensures var x' := ReleaseStep(cfg, x, t);
            && x'.threads == x.threads[t := x'.threads[t]] && !x'.threads[t].Acquiring?
            && (x'.log == x.log || x'.log == x.log + [x'.log[|x.log|]])
            && Settled(x'.log) == Settled(x.log) + (if x'.threads[t].Idle? then 1 else 0)
            && Finished(x'.log) == Finished(x.log)
  {
    hide Settled, Finished;
    var x' := ReleaseStep(cfg, x, t);
    if x'.log != x.log { LogOneMore(x.log, x'.log[|x.log|]); }
  }

  lemma AcquireLogs(cfg: Config, x: State, t: nat)
    requires Shape(cfg, x) && t < |x.threads| && x.threads[t].Acquiring?
    ensures var x' := AcquireStep(cfg, x, t);
            && x'.threads == x.threads[t := x'.threads[t]] && !x'.threads[t].Releasing?
            && (x'.log == x.log || x'.log == x.log + [x'.log[|x.log|]])
            && Settled(x'.log) == Settled(x.log)
            && Finished(x'.log) == Finished(x.log) + (if x'.threads[t].Idle? then 1 else 0)
  {
    hide Settled, Finished;
    var x' := AcquireStep(cfg, x, t);
    if x'.log != x.log { LogOneMore(x.log, x'.log[|x.log|]); }
  }

  lemma StepSettles(cfg: Config, x: State, ev: Event)
    requires Shape(cfg, x) && Enabled(x, ev)
    ensures var x' := Step(cfg, x, ev);
            && Settled(x'.log) + InFlight(x'.threads, true)
               == Settled(x.log) + InFlight(x.threads, true) + (if ev.BeginRelease? || ev.BeginFenced? then 1 else 0)
            && Finished(x'.log) + InFlight(x'.threads, false)
               == Finished(x.log) + InFlight(x.threads, false) + (if ev.BeginAcquire? then 1 else 0)
  {
    hide Settled, Finished, InFlight, ReleaseStep, AcquireStep;
    var x' := Step(cfg, x, ev);
    if ev.Tick? { TickSettles(cfg, x, ev.t); }
    if !ev.Barrier? {
      InFlightUpdate(x.threads, ev.t, x'.threads[ev.t], true);
      InFlightUpdate(x.threads, ev.t, x'.threads[ev.t], false);
      assert ev.ArmFence? ==> x.threads[ev.t := x.threads[ev.t]] == x.threads;
    }
  }

  /** Nothing asked for is lost: in every run each release is published, dropped or still in flight, and each
      acquire has ended or is in flight; when all threads are idle, each has come to its one outcome. */
  lemma {:induction false} EveryRequestSettles(cfg: Config, x: State, evs: seq<Event>)
    requires Shape(cfg, x) && Runnable(cfg, x, evs)
    ensures var end := Run(cfg, x, evs);
            && Settled(end.log) + InFlight(end.threads, true)
               == Settled(x.log) + InFlight(x.threads, true) + Releases(evs)
            && Finished(end.log) + InFlight(end.threads, false)
               == Finished(x.log) + InFlight(x.threads, false) + Acquires(evs)
            && (AllQuiet(end.threads) ==>
                  && Settled(end.log) == Settled(x.log) + InFlight(x.threads, true) + Releases(evs)
                  && Finished(end.log) == Finished(x.log) + InFlight(x.threads, false) + Acquires(evs))
    decreases |evs|
  {
    hide Step, Enabled, Shape, Settled, Finished, InFlight, AllQuiet;
    if evs != [] {
      StepShape(cfg, x, evs[0]);
      StepSettles(cfg, x, evs[0]);
      EveryRequestSettles(cfg, Step(cfg, x, evs[0]), evs[1..]);
    }
    if AllQuiet(Run(cfg, x, evs).threads) {
      NobodyInFlight(Run(cfg, x, evs).threads, true);
      NobodyInFlight(Run(cfg, x, evs).threads, false);
    }
  }

  // ---------------------------------------------------------------- giving up

  /** A release is at the last slot of its path, and the slot is being filled in by another thread. */
  ghost predicate MeetsClaimedAtEnd(cfg: Config, x: State, t: nat, attempt: nat) {
    && Shape(cfg, x) && t < |x.threads| && x.threads[t].Releasing? && x.threads[t].rpc.ReadGeneration?
    && x.threads[t].rpc.attempt == attempt && x.threads[t].rpc.probe + 1 == cfg.capacity
    && x.slots[At(cfg, x.threads[t].release.key, cfg.capacity - 1)].generation == CLAIMED
  }

  /** Meeting a claimed slot, a release starts over three times, from the first slot of its path, and gives up
      the fourth. */
  lemma GivesUpTheFourthTime(cfg: Config, x: State, t: nat, attempt: nat)
    requires MeetsClaimedAtEnd(cfg, x, t, attempt)
    ensures var x' := Step(cfg, x, Tick(t));
            if attempt < 3
            then x'.log == x.log
                 && x'.threads[t] == Releasing(x.threads[t].release, ReadGeneration(attempt + 1, 0, false))
            else x'.log == x.log + [Dropped(x.threads[t].release.key)] && x'.threads[t].Idle?
  {
  }
}
