/** The guarantees of the benchmark's watchpoints in terms of what the work items ask to observe: ranges of the
    Observe events of a run, and the barriers between them. */
module LoomRequests {
  import opened ShadowWords
  import opened LoomWatchpoints
  import C = LoomCoverage

  ghost function Barriers(evs: seq<Event>): nat {
    if evs == [] then 0 else Barriers(evs[..|evs| - 1]) + if evs[|evs| - 1].Barrier? then 1 else 0
  }

  /** The cells an event asks for that a word can name. */
  ghost predicate AsksFor(ev: Event, cell: nat)
    requires ev.Observe?
  {
    ev.start <= cell < ev.start + ev.count && cell <= 0x3FFF
  }

  ghost predicate Reaches(s: State, evs: seq<Event>, end: State) {
    Shape(s) && Shape(end) && Runnable(s, evs) && Run(s, evs) == end
  }

  lemma {:induction false} Then(s: State, evs: seq<Event>, mid: State, ev: Event)
    requires Reaches(s, evs, mid) && Enabled(mid, ev)
    ensures Reaches(s, evs + [ev], Step(mid, ev))
    decreases |evs|
  {
    hide Step, Enabled, Shape;
    StepShape(mid, ev);
    if evs == [] {
      C.RunNothing(Step(mid, ev));
      assert evs + [ev] == [ev] && [ev][1..] == [];
      C.RunHead(s, [ev], Step(mid, ev));
    } else {
      StepShape(s, evs[0]);
      Then(Step(s, evs[0]), evs[1..], mid, ev);
      assert (evs + [ev])[1..] == evs[1..] + [ev];
    }
  }

  /** After these events there are n publications. */
  ghost predicate PublishedBy(s: State, evs: seq<Event>, n: nat) {
    exists mid :: Reaches(s, evs, mid) && |mid.published| == n
  }

  /** The observation is what event e of the history asks for, in the epoch that the barriers before it make; its
      scan began when there were the publications that the events before it had made. */
  ghost predicate Requested(s0: State, past: seq<Event>, e: nat, o: Observation) {
    && e < |past| && past[e].Observe?
    && o.item == past[e].t && o.kind == past[e].kind && o.slot == past[e].slot && o.visited == past[e].visited
    && o.epoch == s0.epoch + Barriers(past[..e]) && PublishedBy(s0, past[..e], o.begun)
    && forall cell: nat :: InRange(cell, o.start, o.count) <==> AsksFor(past[e], cell)
  }

  ghost predicate Sourced(s0: State, past: seq<Event>, o: Observation) {
    exists e: nat :: Requested(s0, past, e, o)
  }

  /** Everything in flight, published, or credited with a consumption was asked for. */
  ghost predicate AllSourced(s0: State, past: seq<Event>, s: State) {
    && Reaches(s0, past, s) && s.epoch == s0.epoch + Barriers(past)
    && (forall t :: 0 <= t < |s.threads| && !s.threads[t].Idle? ==> Sourced(s0, past, s.threads[t].o))
    && (forall k :: 0 <= k < |s.published| ==> Sourced(s0, past, s.published[k]))
    && (forall c :: 0 <= c < |s.consumed| ==> Sourced(s0, past, s.consumed[c].scan))
  }

  lemma StillSourced(s0: State, past: seq<Event>, ev: Event, o: Observation, looked: seq<nat>)
    requires Sourced(s0, past, o)
    ensures Sourced(s0, past + [ev], o) && Sourced(s0, past + [ev], o.(looked := looked))
  {
    hide PublishedBy;
    var e: nat :| Requested(s0, past, e, o);
    assert (past + [ev])[..e] == past[..e];
    assert Requested(s0, past + [ev], e, o) && Requested(s0, past + [ev], e, o.(looked := looked));
  }

  lemma NewRequest(s0: State, past: seq<Event>, s: State, ev: Event)
    requires Reaches(s0, past, s) && Enabled(s, ev) && ev.Observe? && !Ignored(ev.start, ev.count)
    requires s.epoch == s0.epoch + Barriers(past)
    ensures Sourced(s0, past + [ev], Step(s, ev).threads[ev.t].o)
  {
    hide Runnable, Run;
    var o := Step(s, ev).threads[ev.t].o;
    assert PublishedBy(s0, past, |s.published|);
    assert (past + [ev])[..|past|] == past;
    forall cell: nat ensures InRange(cell, o.start, o.count) <==> AsksFor(ev, cell) {
      ClippedCells(ev.start, ev.count, cell);
    }
    assert Requested(s0, past + [ev], |past|, o);
  }

  lemma StepSourced(s0: State, past: seq<Event>, s: State, ev: Event)
    requires Shape(s) && Enabled(s, ev) && AllSourced(s0, past, s)
    ensures AllSourced(s0, past + [ev], Step(s, ev))
  {
    hide Sourced, Conflicts, Requested, ObservationOf, Runnable, Run;
    var s' := Step(s, ev);
    StepShape(s, ev);
    Then(s0, past, s, ev);
    assert (past + [ev])[..|past|] == past;
    forall k | 0 <= k < |s.published| ensures Sourced(s0, past + [ev], s.published[k]) {
      StillSourced(s0, past, ev, s.published[k], []);
    }
    forall c | 0 <= c < |s.consumed| ensures Sourced(s0, past + [ev], s.consumed[c].scan) {
      StillSourced(s0, past, ev, s.consumed[c].scan, []);
    }
    forall t | 0 <= t < |s.threads| && !s.threads[t].Idle?
      ensures Sourced(s0, past + [ev], s.threads[t].o)
      ensures Sourced(s0, past + [ev], s.threads[t].o.(looked := s.threads[t].o.looked + [|s.published|]))
    {
      StillSourced(s0, past, ev, s.threads[t].o, s.threads[t].o.looked + [|s.published|]);
    }
    if ev.Observe? && !Ignored(ev.start, ev.count) { NewRequest(s0, past, s, ev); }
  }

  lemma {:induction false} RunSourced(s0: State, past: seq<Event>, s: State, evs: seq<Event>)
    requires Shape(s) && Runnable(s, evs) && AllSourced(s0, past, s)
    ensures AllSourced(s0, past + evs, Run(s, evs))
    decreases |evs|
  {
    hide AllSourced, Step, Enabled, Shape;
    if evs == [] {
      assert past + evs == past;
    } else {
      StepShape(s, evs[0]);
      StepSourced(s0, past, s, evs[0]);
      RunSourced(s0, past + [evs[0]], Step(s, evs[0]), evs[1..]);
      assert past + [evs[0]] + evs[1..] == past + evs;
    }
  }

  /** What every run publishes, and whatever consumes, was asked for by one of its events. */
  lemma PublishedIsRequested(s: State, evs: seq<Event>)
    requires Init(s) && Shape(s) && Runnable(s, evs)
    ensures var end := Run(s, evs);
            && (forall k :: 0 <= k < |end.published| ==> Sourced(s, evs, end.published[k]))
            && (forall c :: 0 <= c < |end.consumed| ==> Sourced(s, evs, end.consumed[c].scan))
  {
    assert Reaches(s, [], s);
    RunSourced(s, [], s, evs);
    assert [] + evs == evs;
  }

  // ---------------------------------------------------------------- how many

  ghost function Busy(threads: seq<Thread>): nat {
    if threads == [] then 0 else Busy(threads[..|threads| - 1]) + if threads[|threads| - 1].Idle? then 0 else 1
  }

  /** The events that ask for an encodable cell. */
  ghost function Asking(evs: seq<Event>): nat {
    if evs == [] then 0
    else Asking(evs[1..]) + if evs[0].Observe? && AsksFor(evs[0], evs[0].start) then 1 else 0
  }

  lemma {:induction false} BusyUpdate(threads: seq<Thread>, t: nat, th: Thread)
    requires t < |threads|
    ensures Busy(threads[t := th]) + (if threads[t].Idle? then 0 else 1) == Busy(threads) + if th.Idle? then 0 else 1
  {
    var k := |threads| - 1;
    if t < k {
      BusyUpdate(threads[..k], t, th);
      assert threads[t := th][..k] == threads[..k][t := th];
    } else {
      assert threads[t := th][..k] == threads[..k];
    }
  }

  lemma {:induction false} NobodyBusy(threads: seq<Thread>)
    requires forall t :: 0 <= t < |threads| ==> threads[t].Idle?
    ensures Busy(threads) == 0
  {
    if threads != [] { NobodyBusy(threads[..|threads| - 1]); }
  }

  lemma StepCounts(s: State, ev: Event)
    requires Shape(s) && Enabled(s, ev)
    ensures var s' := Step(s, ev);
            |s'.published| + Busy(s'.threads)
            == |s.published| + Busy(s.threads) + if ev.Observe? && AsksFor(ev, ev.start) then 1 else 0
  {
    hide Conflicts, ObservationOf, Busy;
    var s' := Step(s, ev);
    if ev.Observe? || ev.Tick? { BusyUpdate(s.threads, ev.t, s'.threads[ev.t]); }
    assert ev.Observe? ==> s.threads[ev.t := s.threads[ev.t]] == s.threads;
  }

  /** Nothing asked for is dropped or published twice: at the end of every run in which all work items have
      finished there is one publication for each event that asks for an encodable cell. */
  lemma {:induction false} EveryRequestIsPublished(s: State, evs: seq<Event>)
    requires Shape(s) && Runnable(s, evs)
    ensures var end := Run(s, evs);
            && |end.published| + Busy(end.threads) == |s.published| + Busy(s.threads) + Asking(evs)
            && ((forall t :: 0 <= t < |end.threads| ==> end.threads[t].Idle?) ==>
                  |end.published| == |s.published| + Busy(s.threads) + Asking(evs))
    decreases |evs|
  {
    hide Step, Enabled, Shape, Busy;
    if evs != [] {
      StepShape(s, evs[0]);
      StepCounts(s, evs[0]);
      EveryRequestIsPublished(Step(s, evs[0]), evs[1..]);
    }
    if forall t :: 0 <= t < |Run(s, evs).threads| ==> Run(s, evs).threads[t].Idle? {
      NobodyBusy(Run(s, evs).threads);
    }
  }

  // ---------------------------------------------------------------- races between requests

  /** Two events race: other work items (up to the owner field), the same epoch (up to the epoch field), not both
      reads, and a cell that both ask for. */
  ghost predicate RequestsRace(evs: seq<Event>, a: nat, b: nat)
    requires a < |evs| && b < |evs| && evs[a].Observe? && evs[b].Observe?
  {
    && evs[a].t % 0x400 != evs[b].t && !(evs[a].kind == READ && evs[b].kind == READ)
    && Barriers(evs[..a]) % 0x400 == Barriers(evs[..b]) % 0x400
    && exists cell: nat :: AsksFor(evs[a], cell) && AsksFor(evs[b], cell)
  }

  lemma SameEpochs(first: nat, x: nat, y: nat)
    ensures (first + x) % 0x400 == (first + y) % 0x400 <==> x % 0x400 == y % 0x400
  {
  }

  lemma RaceOfRequests(s0: State, evs: seq<Event>, a: nat, b: nat, x: Observation, y: Observation)
    requires Requested(s0, evs, a, x) && Requested(s0, evs, b, y)
    ensures Race(x, y) <==> RequestsRace(evs, a, b)
  {
    SameEpochs(s0.epoch, Barriers(evs[..a]), Barriers(evs[..b]));
    if Race(x, y) {
      var cell: nat :| InRange(cell, y.start, y.count) && InRange(cell, x.start, x.count);
      assert AsksFor(evs[a], cell) && AsksFor(evs[b], cell);
    }
    if RequestsRace(evs, a, b) {
      var cell: nat :| AsksFor(evs[a], cell) && AsksFor(evs[b], cell);
      assert InRange(cell, y.start, y.count) && InRange(cell, x.start, x.count);
    }
  }

  /** No scan misses what was there before it. In every interleaving, if publication i, asked for by event a, had
      been made by the events before b, which asks for publication j, the two events race, and probe m of the
      scan is i's slot, then i has been consumed, or another publication had taken its slot when the probe was
      done. */
  lemma EarlierIsTaken(s: State, evs: seq<Event>, a: nat, b: nat, i: nat, j: nat, m: nat, mid: State)
    requires Init(s) && Shape(s) && Runnable(s, evs)
    requires b < |evs| && Reaches(s, evs[..b], mid) && i < |mid.published|
    requires var end := Run(s, evs);
             && j < |end.published| && i < |end.published|
             && Requested(s, evs, a, end.published[i]) && Requested(s, evs, b, end.published[j])
             && m < |evs[b].visited| && evs[b].visited[m] == evs[a].slot && RequestsRace(evs, a, b)
    ensures var end := Run(s, evs);
            && m < |end.published[j].looked| && i < j && end.published[j].looked[m] <= |end.published|
            && (C.Consumed(end, i) || C.Replaced(end, i, end.published[j].looked[m]))
  {
    hide Race, RequestsRace;
    var end := Run(s, evs);
    PublishedByOne(s, evs[..b], end.published[j].begun, mid);
    RaceOfRequests(s, evs, a, b, end.published[i], end.published[j]);
    C.EarlierObservationIsTaken(s, evs, i, j, m);
  }

  lemma PublishedByOne(s: State, evs: seq<Event>, n: nat, mid: State)
    requires PublishedBy(s, evs, n) && Reaches(s, evs, mid)
    ensures n == |mid.published|
  {
  }

  /** Nobody is accused for nothing: what consumes a publication of the run was asked for by an event that races
      with the one that asked for the publication. */
  lemma ConsumedRequestRaced(s: State, evs: seq<Event>, c: nat) returns (a: nat, b: nat)
    requires Init(s) && Shape(s) && Runnable(s, evs)
    requires c < |Run(s, evs).consumed| && |s.table| <= Run(s, evs).consumed[c].id
    ensures var end := Run(s, evs);
            && end.consumed[c].id - |s.table| < |end.published|
            && Requested(s, evs, a, end.published[end.consumed[c].id - |s.table|])
            && Requested(s, evs, b, end.consumed[c].scan)
            && a < |evs| && b < |evs| && RequestsRace(evs, a, b)
  {
    hide Race, RequestsRace, Requested;
    var end := Run(s, evs);
    EachPublicationIsReportedAtMostOnce(s, evs);
    PublishedIsRequested(s, evs);
    var prior := end.published[end.consumed[c].id - |s.table|];
    assert Sourced(s, evs, prior) && Sourced(s, evs, end.consumed[c].scan);
    a :| Requested(s, evs, a, prior);
    b :| Requested(s, evs, b, end.consumed[c].scan);
    RequestedEvents(s, evs, a, prior);
    RequestedEvents(s, evs, b, end.consumed[c].scan);
    RaceOfRequests(s, evs, a, b, prior, end.consumed[c].scan);
  }

  lemma RequestedEvents(s0: State, evs: seq<Event>, e: nat, o: Observation)
    requires Requested(s0, evs, e, o)
    ensures e < |evs| && evs[e].Observe?
  {
  }
}
