/** What every run of the table protocol guarantees. */
module ReleaseTableTheorems {
  import opened ReleaseTable
  import opened ReleaseTableInvariant
  import opened ReleaseTableSteps

  /** All releases of `k` in flight carry epoch `e`. */
  ghost predicate Agrees(s: State, k: Key, e: nat) {
    forall t :: 0 <= t < |s.threads| && s.threads[t].Releasing? && s.threads[t].release.key == k ==>
      s.threads[t].release.epoch == e
  }

  /** Starting the event leaves concurrent releases of one key with one epoch. */
  ghost predicate Disciplined(cfg: Config, s: State, ev: Event)
    requires Shape(cfg, s) && Enabled(s, ev)
  {
    match ev
    case BeginRelease(t, addr) => Agrees(s, Key(addr, cfg.group[t]), s.epochs[cfg.group[t]])
    case BeginFenced(t, addr) => Agrees(s, Key(addr, cfg.group[t]), s.fences[t] - 1)
    case _ => true
  }

  /** No barrier lies between arming a fence and the store that publishes it. */
  ghost predicate FreshFence(cfg: Config, s: State, ev: Event)
    requires Shape(cfg, s) && Enabled(s, ev)
  {
    ev.BeginFenced? ==> s.fences[ev.t] == s.epochs[cfg.group[ev.t]] + 1
  }

  ghost predicate Runnable(cfg: Config, s: State, evs: seq<Event>)
    requires Shape(cfg, s)
    decreases |evs|
  {
    evs == [] || (Enabled(s, evs[0]) && (StepShape(cfg, s, evs[0]); Runnable(cfg, Step(cfg, s, evs[0]), evs[1..])))
  }

  ghost function Run(cfg: Config, s: State, evs: seq<Event>): State
    requires Shape(cfg, s) && Runnable(cfg, s, evs)
    decreases |evs|
  {
    if evs == [] then s else (StepShape(cfg, s, evs[0]); Run(cfg, Step(cfg, s, evs[0]), evs[1..]))
  }

  ghost predicate DisciplinedRun(cfg: Config, s: State, evs: seq<Event>)
    requires Shape(cfg, s) && Runnable(cfg, s, evs)
    decreases |evs|
  {
    evs == [] || (&& Disciplined(cfg, s, evs[0])
                  && (StepShape(cfg, s, evs[0]); DisciplinedRun(cfg, Step(cfg, s, evs[0]), evs[1..])))
  }

  ghost predicate FreshFenceRun(cfg: Config, s: State, evs: seq<Event>)
    requires Shape(cfg, s) && Runnable(cfg, s, evs)
    decreases |evs|
  {
    evs == [] || (&& FreshFence(cfg, s, evs[0])
                  && (StepShape(cfg, s, evs[0]); FreshFenceRun(cfg, Step(cfg, s, evs[0]), evs[1..])))
  }

  // ---------------------------------------------------------------- every event keeps the invariant

  lemma InitInv(cfg: Config, d: bool, s: State)
    requires Init(cfg, s)
    ensures Inv(cfg, d, s)
  {
  }

  lemma FencesKeep(cfg: Config, d: bool, s: State, t: nat, v: nat)
    requires Inv(cfg, d, s) && t < |s.threads| && v <= s.epochs[cfg.group[t]] + 1
    ensures Inv(cfg, d, s.(fences := s.fences[t := v]))
  {
    var s' := s.(fences := s.fences[t := v]);
    forall i | 0 <= i < |s.slots| ensures SlotInv(cfg, s', i) { assert SlotInv(cfg, s, i); }
    forall j | 0 <= j < |s.log| ensures EntryOk(cfg, d, s', j) {
      assert EntryOk(cfg, d, s, j);
      assert forall k, e, q :: CoversAt(cfg, s, k, e, 0, q) ==> CoversAt(cfg, s', k, e, 0, q);
      assert forall i :: NonStale(cfg, s, i) ==> NonStale(cfg, s', i);
      assert forall c, k, b :: Served(d, s, c, k, b) ==> Served(d, s', c, k, b) by {
        assert forall c, p :: Token(s', c, p) == Token(s, c, p);
      }
    }
    forall u | 0 <= u < |s.threads| ensures ThreadInv(cfg, d, s', u) {
      FencesKeepThread(cfg, d, s, s', u);
    }
    TokensKept(s, s');
  }

  lemma FencesKeepThread(cfg: Config, d: bool, s: State, s': State, u: nat)
    requires Inv(cfg, d, s) && u < |s.threads| && s' == s.(fences := s'.fences)
    ensures ThreadInv(cfg, d, s', u)
  {
    assert ThreadInv(cfg, d, s, u);
    if s.threads[u].Releasing? {
      assert ReleaseInv(cfg, d, s', u, s.threads[u].release, s.threads[u].rpc);
    } else if s.threads[u].Acquiring? {
      assert forall c, p :: Token(s', c, p) == Token(s, c, p);
      assert forall k, e, from, q :: CoversAt(cfg, s, k, e, from, q) ==> CoversAt(cfg, s', k, e, from, q);
      assert forall k, b, from :: Promise(cfg, d, s, k, b, from) ==> Promise(cfg, d, s', k, b, from);
    }
  }

  lemma BeginKeeps(cfg: Config, d: bool, s: State, t: nat, th: Thread)
    requires Inv(cfg, d, s) && t < |s.threads| && s.threads[t].Idle?
    requires th.Releasing? ==>
               && th.rpc == ReadGeneration(0, 0, false)
               && th.release.key.producer == cfg.group[t] && th.release.epoch <= s.epochs[cfg.group[t]]
               && (Strict(cfg, d) ==> Agrees(s, th.release.key, th.release.epoch))
    requires th.Acquiring? ==>
               && th.apc == NextProducer && th.acquire.begin == |s.log|
               && th.acquire.imported == {} && th.acquire.cachePass
    ensures Inv(cfg, d, Goto(s, t, th))
  {
    var s' := Goto(s, t, th);
    LocalKeeps(cfg, d, s, s', t);
    TokensKept(s, s');
    Assemble(cfg, d, s, s', t);
  }

  lemma BarrierKeeps(cfg: Config, d: bool, s: State)
    requires Inv(cfg, d, s) && Enabled(s, Barrier)
    ensures Inv(cfg, d, Step(cfg, s, Barrier))
  {
    var s' := Step(cfg, s, Barrier);
    forall i | 0 <= i < |s.slots| ensures SlotInv(cfg, s', i) { assert SlotInv(cfg, s, i); }
    forall j | 0 <= j < |s.log| ensures EntryOk(cfg, d, s', j) {
      assert EntryOk(cfg, d, s, j);
      assert forall k, e, q :: CoversAt(cfg, s, k, e, 0, q) ==> CoversAt(cfg, s', k, e, 0, q);
      assert forall i :: NonStale(cfg, s, i) ==> NonStale(cfg, s', i);
      assert forall c, k, b :: Served(d, s, c, k, b) ==> Served(d, s', c, k, b) by {
        assert forall c, p :: Token(s', c, p) == Token(s, c, p);
      }
    }
    TokensKept(s, s');
  }

  lemma StepKeeps(cfg: Config, d: bool, s: State, ev: Event)
    requires Inv(cfg, d, s) && Enabled(s, ev) && (Strict(cfg, d) ==> Disciplined(cfg, s, ev))
    ensures Inv(cfg, d, Step(cfg, s, ev))
  {
    match ev
    case BeginRelease(t, addr) => BeginKeeps(cfg, d, s, t, Step(cfg, s, ev).threads[t]);
    case BeginFenced(t, addr) =>
      FencesKeep(cfg, d, s, t, 0);
      BeginKeeps(cfg, d, s.(fences := s.fences[t := 0]), t, Step(cfg, s, ev).threads[t]);
    case ArmFence(t) => FencesKeep(cfg, d, s, t, s.epochs[cfg.group[t]] + 1);
    case BeginAcquire(t, _, _) => BeginKeeps(cfg, d, s, t, Step(cfg, s, ev).threads[t]);
    case Barrier => BarrierKeeps(cfg, d, s);
    case Tick(t) => if s.threads[t].Releasing? { ReleaseKeeps(cfg, d, s, t); } else { AcquireKeeps(cfg, d, s, t); }
  }

  lemma {:induction false} RunKeeps(cfg: Config, d: bool, s: State, evs: seq<Event>)
    requires Inv(cfg, d, s) && Runnable(cfg, s, evs) && (Strict(cfg, d) ==> DisciplinedRun(cfg, s, evs))
    ensures Inv(cfg, d, Run(cfg, s, evs))
    decreases |evs|
  {
    if evs != [] {
      StepKeeps(cfg, d, s, evs[0]);
      RunKeeps(cfg, d, Step(cfg, s, evs[0]), evs[1..]);
    }
  }

  // ---------------------------------------------------------------- main results

  /** A lookup begun after a record of its key was published finds one: in every interleaving, for
      every probe start, every capacity, and with no assumption on concurrent releases. */
  lemma PublishedIsNeverMissed(cfg: Config, s: State, evs: seq<Event>, i: nat, j: nat)
    requires Init(cfg, s) && Runnable(cfg, s, evs)
    requires var log := Run(cfg, s, evs).log;
             i < |log| && j < |log| && log[i].Published? && log[j].Missed? && i < log[j].begin
    ensures var log := Run(cfg, s, evs).log; log[i].key != log[j].key
  {
    InitInv(cfg, false, s);
    RunKeeps(cfg, false, s, evs);
    assert EntryOk(cfg, false, Run(cfg, s, evs), j);
  }

  /** After an acquire, the consumer holds a token for every producer that had published on the
      address before the acquire began, whatever the cache answered. */
  lemma AcquireImportsEveryProducer(cfg: Config, s: State, evs: seq<Event>, i: nat, j: nat)
    requires Init(cfg, s) && Runnable(cfg, s, evs)
    requires var log := Run(cfg, s, evs).log;
             && i < |log| && j < |log| && log[i].Published? && log[j].Acquired? && i < log[j].begin
             && log[i].key.addr == log[j].addr && log[i].key.producer != log[j].consumer
    ensures var end := Run(cfg, s, evs); 1 <= Token(end, end.log[j].consumer, end.log[i].key.producer)
  {
    InitInv(cfg, false, s);
    RunKeeps(cfg, false, s, evs);
    var end := Run(cfg, s, evs);
    assert EntryOk(cfg, false, end, j);
    RunPublishedInRange(cfg, false, end, i);
    assert Served(false, end, end.log[j].consumer, end.log[i].key, end.log[j].begin);
  }

  lemma RunPublishedInRange(cfg: Config, d: bool, s: State, i: nat)
    requires Inv(cfg, d, s) && i < |s.log| && s.log[i].Published?
    ensures s.log[i].key.producer < cfg.subgroups
  {
    assert EntryOk(cfg, d, s, i);
    var r := Recorded(s.log[i].key, s.log[i].epoch);
    var n :| 0 <= n < i && s.log[..i][n] == r;
    assert EntryOk(cfg, d, s, n);
  }

  /** When concurrent releases of one key carry one epoch, or the table has a single slot, an acquire
      orders its consumer after the latest epoch released before it began. */
  lemma AcquireImportsLatestEpoch(cfg: Config, s: State, evs: seq<Event>, i: nat, j: nat)
    requires Init(cfg, s) && Runnable(cfg, s, evs) && (DisciplinedRun(cfg, s, evs) || cfg.capacity == 1)
    requires var log := Run(cfg, s, evs).log;
             && i < |log| && j < |log| && log[i].Published? && log[j].Acquired? && i < log[j].begin
             && log[i].key.addr == log[j].addr && log[i].key.producer != log[j].consumer
    ensures var end := Run(cfg, s, evs);
            end.log[i].epoch + 1 <= Token(end, end.log[j].consumer, end.log[i].key.producer)
  {
    InitInv(cfg, true, s);
    RunKeeps(cfg, true, s, evs);
    var end := Run(cfg, s, evs);
    assert EntryOk(cfg, true, end, j);
    RunPublishedInRange(cfg, true, end, i);
    assert Served(true, end, end.log[j].consumer, end.log[i].key, end.log[j].begin);
  }

  ghost predicate CurrentReleases(s: State) {
    forall t :: 0 <= t < |s.threads| && s.threads[t].Releasing? ==>
      && s.threads[t].release.key.producer < |s.epochs|
      && s.threads[t].release.epoch == s.epochs[s.threads[t].release.key.producer]
  }

  /** Releases that publish their own epoch satisfy the discipline by themselves: only a fence
      carried over a barrier can break it. */
  lemma {:induction false} FreshFencesAreDisciplined(cfg: Config, s: State, evs: seq<Event>)
    requires Shape(cfg, s) && CurrentReleases(s) && Runnable(cfg, s, evs) && FreshFenceRun(cfg, s, evs)
    ensures DisciplinedRun(cfg, s, evs)
    decreases |evs|
  {
    if evs != [] {
      StepShape(cfg, s, evs[0]);
      StaysCurrent(cfg, s, evs[0]);
      FreshFencesAreDisciplined(cfg, Step(cfg, s, evs[0]), evs[1..]);
    }
  }

  lemma StaysCurrent(cfg: Config, s: State, ev: Event)
    requires Shape(cfg, s) && CurrentReleases(s) && Enabled(s, ev) && FreshFence(cfg, s, ev)
    ensures CurrentReleases(Step(cfg, s, ev)) && Disciplined(cfg, s, ev)
  {
    hide ReleaseStep, AcquireStep;
    if ev.Tick? && s.threads[ev.t].Releasing? {
      ReleaseStepMoves(cfg, s, ev.t);
    } else if ev.Tick? {
      AcquireStepMoves(cfg, s, ev.t);
    }
  }

  /** Every token was earned: the producer recorded exactly that epoch on some address, the consumer
      imported it later while acquiring that address, and the epoch is not ahead of the producer. */
  lemma TokensAreEarned(cfg: Config, s: State, evs: seq<Event>, c: nat, p: nat) returns (a: nat, i: nat, j: nat)
    requires Init(cfg, s) && Runnable(cfg, s, evs) && 0 < Token(Run(cfg, s, evs), c, p)
    ensures var end := Run(cfg, s, evs); var e := Token(end, c, p) - 1;
            && i < j < |end.log| && c != p && p < |end.epochs| && e <= end.epochs[p]
            && end.log[i] == Recorded(Key(a, p), e) && end.log[j] == Imported(c, Key(a, p), e)
  {
    InitInv(cfg, false, s);
    RunKeeps(cfg, false, s, evs);
    var end := Run(cfg, s, evs);
    var e := Token(end, c, p) - 1;
    a :| Imported(c, Key(a, p), e) in end.log;
    j :| 0 <= j < |end.log| && end.log[j] == Imported(c, Key(a, p), e);
    assert EntryOk(cfg, false, end, j);
    i :| 0 <= i < j && end.log[..j][i] == Recorded(Key(a, p), e);
    assert EntryOk(cfg, false, end, i);
  }

  /** The log has an import by the consumer of a release by the producer, of epoch e or later. */
  ghost predicate ImportedAtLeast(log: seq<Entry>, c: nat, p: nat, e: nat) {
    exists j :: 0 <= j < |log| && log[j].Imported? && log[j].consumer == c && log[j].key.producer == p
        && e <= log[j].epoch
  }

  /** Tokens keep what was imported. */
  ghost predicate ImportsHeld(s: State) {
    forall j :: 0 <= j < |s.log| && s.log[j].Imported? ==>
      s.log[j].epoch + 1 <= Token(s, s.log[j].consumer, s.log[j].key.producer)
  }

  lemma ReleaseHoldsImports(cfg: Config, s: State, t: nat)
    requires Shape(cfg, s) && ImportsHeld(s) && t < |s.threads| && s.threads[t].Releasing?
    ensures ImportsHeld(ReleaseStep(cfg, s, t)) && ReleaseStep(cfg, s, t).tokens == s.tokens
    ensures s.log <= ReleaseStep(cfg, s, t).log && |ReleaseStep(cfg, s, t).log| <= |s.log| + 1
  {
  }

  lemma AcquireHoldsImports(cfg: Config, s: State, t: nat)
    requires Shape(cfg, s) && ImportsHeld(s) && t < |s.threads| && s.threads[t].Acquiring?
    ensures ImportsHeld(AcquireStep(cfg, s, t)) && s.log <= AcquireStep(cfg, s, t).log
    ensures |AcquireStep(cfg, s, t).log| <= |s.log| + 1
  {
    assert forall c, p :: Token(s, c, p) <= Token(AcquireStep(cfg, s, t), c, p);
  }

  lemma StepHoldsImports(cfg: Config, s: State, ev: Event)
    requires Shape(cfg, s) && ImportsHeld(s) && Enabled(s, ev)
    ensures ImportsHeld(Step(cfg, s, ev)) && s.log <= Step(cfg, s, ev).log
    ensures |Step(cfg, s, ev).log| <= |s.log| + 1
  {
    hide ReleaseStep, AcquireStep;
    if ev.Tick? && s.threads[ev.t].Releasing? {
      ReleaseHoldsImports(cfg, s, ev.t);
    } else if ev.Tick? {
      AcquireHoldsImports(cfg, s, ev.t);
    }
  }

  lemma {:induction false} RunHoldsImports(cfg: Config, s: State, evs: seq<Event>)
    requires Shape(cfg, s) && ImportsHeld(s) && Runnable(cfg, s, evs)
    ensures ImportsHeld(Run(cfg, s, evs))
    decreases |evs|
  {
    if evs != [] {
      StepShape(cfg, s, evs[0]);
      StepHoldsImports(cfg, s, evs[0]);
      RunHoldsImports(cfg, Step(cfg, s, evs[0]), evs[1..]);
    }
  }

  /** The two invariants together say exactly what a token is worth. */
  lemma TokenOfImports(s: State, c: nat, p: nat, e: nat)
    requires TokenInv(s) && ImportsHeld(s)
    ensures e + 1 <= Token(s, c, p) <==> ImportedAtLeast(s.log, c, p, e)
  {
    if e + 1 <= Token(s, c, p) {
      var a :| Imported(c, Key(a, p), Token(s, c, p) - 1) in s.log;
      var j :| 0 <= j < |s.log| && s.log[j] == Imported(c, Key(a, p), Token(s, c, p) - 1);
      assert ImportedAtLeast(s.log, c, p, e);
    }
  }

  /** Tokens are exactly the imports: in every run, a token is at least e + 1 if and only if the consumer
      has imported a release of the producer of epoch e or later. */
  lemma TokenMeansImport(cfg: Config, s: State, evs: seq<Event>, c: nat, p: nat, e: nat)
    requires Init(cfg, s) && Runnable(cfg, s, evs)
    ensures var end := Run(cfg, s, evs); e + 1 <= Token(end, c, p) <==> ImportedAtLeast(end.log, c, p, e)
  {
    InitInv(cfg, false, s);
    RunKeeps(cfg, false, s, evs);
    RunHoldsImports(cfg, s, evs);
    TokenOfImports(Run(cfg, s, evs), c, p, e);
  }

  /** A release is dropped (metadata_full) only when no stale slot is left anywhere in the table. */
  lemma DroppedOnlyWhenFull(cfg: Config, s: State, evs: seq<Event>, j: nat)
    requires Init(cfg, s) && Runnable(cfg, s, evs)
    requires j < |Run(cfg, s, evs).log| && Run(cfg, s, evs).log[j].Dropped?
    ensures forall i :: 0 <= i < cfg.capacity ==> NonStale(cfg, Run(cfg, s, evs), i)
  {
    InitInv(cfg, false, s);
    RunKeeps(cfg, false, s, evs);
    assert EntryOk(cfg, false, Run(cfg, s, evs), j);
  }

  ghost predicate Reachable(cfg: Config, s: State) {
    exists s0, evs :: Init(cfg, s0) && Runnable(cfg, s0, evs) && Run(cfg, s0, evs) == s
  }

  /** Over any stretch of any run, a slot only moves from CLAIMED to current, its key never changes,
      and the epoch it offers never falls. */
  lemma SlotsOnlyAdvance(cfg: Config, s: State, evs: seq<Event>, i: nat)
    requires Reachable(cfg, s) && Shape(cfg, s) && Runnable(cfg, s, evs) && NonStale(cfg, s, i)
    ensures var end := Run(cfg, s, evs);
            && NonStale(cfg, end, i)
            && (Ready(cfg, s, i) ==>
                  && Ready(cfg, end, i)
                  && end.slots[i].addr == s.slots[i].addr && end.slots[i].producer == s.slots[i].producer
                  && s.slots[i].epoch <= end.slots[i].epoch)
  {
    var s0, evs0 :| Init(cfg, s0) && Runnable(cfg, s0, evs0) && Run(cfg, s0, evs0) == s;
    InitInv(cfg, false, s0);
    RunKeeps(cfg, false, s0, evs0);
    RunAdvances(cfg, s, evs, i);
  }

  lemma {:induction false} RunAdvances(cfg: Config, s: State, evs: seq<Event>, i: nat)
    requires Inv(cfg, false, s) && Runnable(cfg, s, evs) && i < cfg.capacity && NonStale(cfg, s, i)
    ensures var end := Run(cfg, s, evs);
            && NonStale(cfg, end, i)
            && (Ready(cfg, s, i) ==>
                  && Ready(cfg, end, i)
                  && end.slots[i].addr == s.slots[i].addr && end.slots[i].producer == s.slots[i].producer
                  && s.slots[i].epoch <= end.slots[i].epoch)
    decreases |evs|
  {
    if evs != [] {
      var s' := Step(cfg, s, evs[0]);
      StepKeeps(cfg, false, s, evs[0]);
      TickMoves(cfg, s, evs[0], i);
      RunAdvances(cfg, s', evs[1..], i);
    }
  }

  lemma TickMoves(cfg: Config, s: State, ev: Event, i: nat)
    requires Inv(cfg, false, s) && Enabled(s, ev) && i < cfg.capacity && NonStale(cfg, s, i)
    ensures var s' := Step(cfg, s, ev);
            && i < |s'.slots| && i < |s'.claims| && NonStale(cfg, s', i) && s'.claims[i] == s.claims[i]
            && Level(cfg, s, i) <= Level(cfg, s', i)
            && (Ready(cfg, s, i) ==>
                  && Ready(cfg, s', i)
                  && s'.slots[i].addr == s.slots[i].addr && s'.slots[i].producer == s.slots[i].producer)
  {
    if ev.Tick? && s.threads[ev.t].Releasing? {
      assert ThreadInv(cfg, false, s, ev.t);
      if s.threads[ev.t].rpc.Write? {
        WriteMoves(cfg, false, s, ev.t);
        assert SlotMoves(cfg, false, s, WriteStep(cfg, s, ev.t), ev.t, i);
      }
    }
  }
}
