/** When a scan of the benchmark's consumable watchpoints cannot miss: what had been published before the
    scan began, conflicts, and lies on its path has been consumed, or displaced, by the time of the look. */
module LoomCoverage {
  import opened ShadowWords
  import opened LoomWatchpoints

  ghost predicate Consumed(s: State, i: nat) {
    exists c :: 0 <= c < |s.consumed| && s.consumed[c].id == |s.table| + i
  }

  /** One of the first n publications, after publication i, took its slot. */
  ghost predicate Replaced(s: State, i: nat, n: nat)
    requires i < |s.published|
  {
    exists k :: i < k < n && k < |s.published| && s.published[k].slot == s.published[i].slot
  }

  ghost predicate Gone(s: State, i: nat, n: nat)
    requires i < |s.published|
  {
    Consumed(s, i) || Replaced(s, i, n)
  }

  /** Publication i is still in its slot, unless another has taken it. */
  ghost predicate HolderOk(s: State, i: nat)
    requires Shape(s) && i < |s.published| && s.published[i].slot < |s.table|
  {
    var x := s.published[i].slot;
    Replaced(s, i, |s.published|)
    || (s.ids[x] == |s.table| + i && (s.table[x] == s.published[i].word || Consumed(s, i)))
  }

  /** Probe m of o concerns publication i, made before the scan began. */
  ghost predicate Concerns(s: State, o: Observation, i: nat, m: nat) {
    && i < o.begun && i < |s.published| && m < |o.visited|
    && o.visited[m] == s.published[i].slot && Conflicts(s.published[i].word, o)
  }

  /** The first `probes` probes of o are done, and each has left nothing behind. */
  ghost predicate Settled(s: State, o: Observation, probes: nat) {
    && |o.looked| == probes <= |o.visited| && o.begun <= |s.published|
    && (forall m :: 0 <= m < probes ==> o.begun <= o.looked[m] <= |s.published|)
    && forall m: nat, i: nat :: m < probes && Concerns(s, o, i, m) ==> Gone(s, i, o.looked[m])
  }

  ghost predicate ThreadOk(s: State, th: Thread) {
    match th
    case Idle => true
    case Scanning(o, probe) => Settled(s, o, probe)
    case Comparing(o, probe, seen) =>
      && Settled(s, o, probe)
      && forall i: nat :: Concerns(s, o, i, probe) ==> Gone(s, i, |s.published|) || seen == s.published[i].word
    case Counting(o, probe) =>
      && Settled(s, o, probe)
      && forall i: nat :: Concerns(s, o, i, probe) ==> Gone(s, i, |s.published|)
  }

  ghost predicate Covered(s: State) {
    && Shape(s)
    && (forall i :: 0 <= i < |s.published| ==> s.published[i].slot < |s.table| && HolderOk(s, i))
    && (forall t :: 0 <= t < |s.threads| ==> ThreadOk(s, s.threads[t]))
    && (forall j :: 0 <= j < |s.published| ==>
          Settled(s, s.published[j], |s.published[j].visited|) && s.published[j].begun <= j)
  }

  ghost predicate Grown(s: State, s': State) {
    s.published <= s'.published && s.consumed <= s'.consumed && |s'.table| == |s.table|
  }

  lemma GoneKept(s: State, s': State, i: nat, n: nat, n': nat)
    requires Grown(s, s') && i < |s.published| && n <= n' && Gone(s, i, n)
    ensures Gone(s', i, n')
  {
    if Consumed(s, i) {
      var c :| 0 <= c < |s.consumed| && s.consumed[c].id == |s.table| + i;
      assert s'.consumed[c].id == |s'.table| + i;
    } else {
      var k :| i < k < n && k < |s.published| && s.published[k].slot == s.published[i].slot;
      assert s'.published[k].slot == s'.published[i].slot;
    }
  }

  lemma SettledKept(s: State, s': State, o: Observation, probes: nat)
    requires Grown(s, s') && Settled(s, o, probes)
    ensures Settled(s', o, probes)
  {
    hide Conflicts, Gone;
    forall m: nat, i: nat | m < probes && Concerns(s', o, i, m) ensures Gone(s', i, o.looked[m]) {
      assert Concerns(s, o, i, m);
      GoneKept(s, s', i, o.looked[m], o.looked[m]);
    }
  }

  lemma ThreadKept(s: State, s': State, th: Thread)
    requires Grown(s, s') && ThreadOk(s, th)
    ensures ThreadOk(s', th)
  {
    hide Conflicts, Gone;
    if !th.Idle? {
      SettledKept(s, s', th.o, th.probe);
      forall i: nat | Concerns(s', th.o, i, th.probe)
        ensures th.Comparing? ==> Gone(s', i, |s'.published|) || th.seen == s'.published[i].word
        ensures th.Counting? ==> Gone(s', i, |s'.published|)
      {
        assert th.o.begun <= |s.published|;
        assert Concerns(s, th.o, i, th.probe);
        if Gone(s, i, |s.published|) { GoneKept(s, s', i, |s.published|, |s'.published|); }
      }
    }
  }

  /** The probe that is done joins the settled ones. */
  lemma ProbeSettled(s: State, o: Observation, probe: nat)
    requires Settled(s, o, probe) && probe < |o.visited|
    requires forall i: nat :: Concerns(s, o, i, probe) ==> Gone(s, i, |s.published|)
    ensures ThreadOk(s, PastProbe(s, o, probe))
  {
    hide Gone;
    var o' := o.(looked := o.looked + [|s.published|]);
    forall m: nat, i: nat | m < probe + 1 && Concerns(s, o', i, m) ensures Gone(s, i, o'.looked[m]) {
      assert Concerns(s, o, i, m);
    }
  }

  /** What a probe finds where nobody has taken the slot is the word, or a consumed one. */
  lemma FoundOrGone(s: State, o: Observation, probe: nat, i: nat)
    requires Covered(s) && Concerns(s, o, i, probe)
    ensures Gone(s, i, |s.published|) || s.table[o.visited[probe]] == s.published[i].word
  {
    assert HolderOk(s, i);
  }

  lemma HoldersKept(s: State, s': State)
    requires Covered(s) && Shape(s') && Grown(s, s') && s'.published == s.published
    requires s'.table == s.table && s'.ids == s.ids
    ensures forall i :: 0 <= i < |s'.published| ==> HolderOk(s', i)
  {
    hide Conflicts;
    forall i | 0 <= i < |s'.published| ensures HolderOk(s', i) {
      assert HolderOk(s, i);
      if Gone(s, i, |s.published|) { GoneKept(s, s', i, |s.published|, |s.published|); }
    }
  }

  lemma OthersKept(s: State, s': State, t: nat)
    requires Covered(s) && Grown(s, s') && t < |s.threads| == |s'.threads|
    requires forall u :: 0 <= u < |s.threads| && u != t ==> s'.threads[u] == s.threads[u]
    ensures forall u :: 0 <= u < |s.threads| && u != t ==> ThreadOk(s', s'.threads[u])
    ensures forall j :: 0 <= j < |s.published| ==> Settled(s', s'.published[j], |s'.published[j].visited|)
  {
    hide ThreadOk, Settled;
    forall u | 0 <= u < |s.threads| && u != t ensures ThreadOk(s', s'.threads[u]) { ThreadKept(s, s', s.threads[u]); }
    forall j | 0 <= j < |s.published| ensures Settled(s', s'.published[j], |s'.published[j].visited|) {
      SettledKept(s, s', s.published[j], |s.published[j].visited|);
    }
  }

  lemma ScanKeeps(s: State, t: nat)
    requires Covered(s) && t < |s.threads| && s.threads[t].Scanning?
    requires s.threads[t].probe < |s.threads[t].o.visited|
    ensures Covered(TickStep(s, t))
  {
    hide Conflicts, Gone, Settled, HolderOk;
    var s', o, probe := TickStep(s, t), s.threads[t].o, s.threads[t].probe;
    StepShape(s, Tick(t));
    HoldersKept(s, s');
    OthersKept(s, s', t);
    forall i: nat | Concerns(s, o, i, probe)
      ensures Gone(s, i, |s.published|) || s.table[o.visited[probe]] == s.published[i].word
    {
      FoundOrGone(s, o, probe, i);
    }
    assert ThreadOk(s, s.threads[t]);
    if Conflicts(s.table[o.visited[probe]], o) {
      ThreadKept(s, s', Comparing(o, probe, s.table[o.visited[probe]]));
    } else {
      ProbeSettled(s, o, probe);
      ThreadKept(s, s', PastProbe(s, o, probe));
    }
  }

  lemma CompareKeeps(s: State, t: nat)
    requires Covered(s) && t < |s.threads| && s.threads[t].Comparing?
    ensures Covered(TickStep(s, t))
  {
    hide Conflicts, Settled;
    var s', o, probe, seen := TickStep(s, t), s.threads[t].o, s.threads[t].probe, s.threads[t].seen;
    var x := o.visited[probe];
    StepShape(s, Tick(t));
    OthersKept(s, s', t);
    assert ThreadOk(s, s.threads[t]);
    if s.table[x] == seen {
      forall i | 0 <= i < |s'.published| ensures HolderOk(s', i) { SwapKeepsHolder(s, s', x, i); }
      SettledKept(s, s', o, probe);
      forall i: nat | Concerns(s', o, i, probe) ensures Gone(s', i, |s'.published|) {
        assert Concerns(s, o, i, probe);
        SwapConsumes(s, s', x, i);
      }
    } else {
      HoldersKept(s, s');
      forall i: nat | Concerns(s, o, i, probe) ensures Gone(s, i, |s.published|) { FoundOrGone(s, o, probe, i); }
      ProbeSettled(s, o, probe);
      ThreadKept(s, s', PastProbe(s, o, probe));
    }
  }

  /** A successful swap at a slot consumes the publication it holds. */
  lemma SwapConsumes(s: State, s': State, x: nat, i: nat)
    requires Covered(s) && Grown(s, s') && i < |s.published| && s.published[i].slot == x
    requires |s'.consumed| == |s.consumed| + 1 && s'.consumed[|s.consumed|].id == s.ids[x]
    ensures Gone(s', i, |s'.published|)
  {
    assert HolderOk(s, i);
    if Replaced(s, i, |s.published|) {
      GoneKept(s, s', i, |s.published|, |s'.published|);
    } else {
      assert s'.consumed[|s.consumed|].id == |s'.table| + i;
    }
  }

  lemma SwapKeepsHolder(s: State, s': State, x: nat, i: nat)
    requires Covered(s) && Shape(s') && Grown(s, s')
    requires i < |s.published| && s'.published == s.published && x < |s.table|
    requires |s'.consumed| == |s.consumed| + 1 && s'.consumed[|s.consumed|].id == s.ids[x] && s'.ids == s.ids
    requires forall y :: 0 <= y < |s.table| && y != x ==> s'.table[y] == s.table[y]
    ensures HolderOk(s', i)
  {
    assert HolderOk(s, i);
    if s.published[i].slot == x {
      SwapConsumes(s, s', x, i);
    } else if Gone(s, i, |s.published|) {
      GoneKept(s, s', i, |s.published|, |s.published|);
    }
  }

  lemma CountKeeps(s: State, t: nat)
    requires Covered(s) && t < |s.threads| && s.threads[t].Counting?
    ensures Covered(TickStep(s, t))
  {
    hide Conflicts, Gone, Settled, HolderOk;
    var s', o, probe := TickStep(s, t), s.threads[t].o, s.threads[t].probe;
    StepShape(s, Tick(t));
    HoldersKept(s, s');
    OthersKept(s, s', t);
    assert ThreadOk(s, s.threads[t]);
    ProbeSettled(s, o, probe);
    ThreadKept(s, s', PastProbe(s, o, probe));
  }

  lemma BegunBefore(s: State, o: Observation, probes: nat)
    requires Settled(s, o, probes)
    ensures o.begun <= |s.published|
  {
  }

  lemma PublishKeeps(s: State, t: nat)
    requires Covered(s) && t < |s.threads| && s.threads[t].Scanning?
    requires s.threads[t].probe == |s.threads[t].o.visited|
    ensures Covered(TickStep(s, t))
  {
    hide Conflicts, Settled;
    var s', o, j := TickStep(s, t), s.threads[t].o, |s.published|;
    StepShape(s, Tick(t));
    OthersKept(s, s', t);
    assert ThreadOk(s, s.threads[t]);
    SettledKept(s, s', o, |o.visited|);
    BegunBefore(s, o, |o.visited|);
    forall i | 0 <= i < |s'.published| ensures HolderOk(s', i) {
      if i < j { PublishKeepsHolder(s, s', o, i); }
    }
  }

  lemma PublishKeepsHolder(s: State, s': State, o: Observation, i: nat)
    requires Covered(s) && Shape(s') && Grown(s, s') && i < |s.published| && s'.published == s.published + [o]
    requires s'.consumed == s.consumed && o.slot < |s.table|
    requires s'.table == s.table[o.slot := o.word] && s'.ids == s.ids[o.slot := |s.table| + |s.published|]
    ensures HolderOk(s', i)
  {
    assert HolderOk(s, i);
    if s.published[i].slot == o.slot {
      assert s'.published[|s.published|].slot == s'.published[i].slot;
    } else if Gone(s, i, |s.published|) {
      GoneKept(s, s', i, |s.published|, |s'.published|);
    }
  }

  lemma StepKeeps(s: State, ev: Event)
    requires Covered(s) && Enabled(s, ev)
    ensures Covered(Step(s, ev))
  {
    hide Conflicts;
    match ev
    case Tick(t) =>
      if s.threads[t].Comparing? {
        CompareKeeps(s, t);
      } else if s.threads[t].Counting? {
        CountKeeps(s, t);
      } else if s.threads[t].probe < |s.threads[t].o.visited| {
        ScanKeeps(s, t);
      } else {
        PublishKeeps(s, t);
      }
    case _ => OtherKeeps(s, ev);
  }

  lemma OtherKeeps(s: State, ev: Event)
    requires Covered(s) && Enabled(s, ev) && !ev.Tick?
    ensures Covered(Step(s, ev))
  {
    hide Conflicts, Gone, HolderOk;
    var s' := Step(s, ev);
    StepShape(s, ev);
    HoldersKept(s, s');
    forall u | 0 <= u < |s'.threads| ensures ThreadOk(s', s'.threads[u]) {
      if s'.threads[u] == s.threads[u] { ThreadKept(s, s', s.threads[u]); }
    }
    forall j | 0 <= j < |s'.published| ensures Settled(s', s'.published[j], |s'.published[j].visited|) {
      SettledKept(s, s', s.published[j], |s.published[j].visited|);
    }
  }

  lemma {:induction false} RunCovered(s: State, evs: seq<Event>)
    requires Shape(s) && Covered(s) && Runnable(s, evs)
    ensures Covered(Run(s, evs))
    decreases |evs|
  {
    hide Covered, Step, Enabled, Shape;
    if evs != [] {
      StepShape(s, evs[0]);
      StepKeeps(s, evs[0]);
      RunCovered(Step(s, evs[0]), evs[1..]);
    }
  }

  /** If publication i had been made when the scan of publication j began, the two observations race and probe m
      of the scan is i's slot, then i has been consumed, or another publication had taken its slot when the
      probe was done. */
  lemma EarlierObservationIsTaken(s: State, evs: seq<Event>, i: nat, j: nat, m: nat)
    requires Init(s) && Shape(s) && Runnable(s, evs)
    requires var end := Run(s, evs);
             && j < |end.published| && i < end.published[j].begun && i < |end.published|
             && m < |end.published[j].visited| && end.published[j].visited[m] == end.published[i].slot
             && Race(end.published[i], end.published[j])
    ensures var end := Run(s, evs);
            && m < |end.published[j].looked| && i < j && end.published[j].looked[m] <= |end.published|
            && (Consumed(end, i) || Replaced(end, i, end.published[j].looked[m]))
  {
    hide Inv, Conserved, Conflicts, Race, Proper, Gone, HolderOk;
    var end := Run(s, evs);
    RunCovered(s, evs);
    ProperPublications(s, evs);
    ConflictMeansRace(end.generation, end.published[i], end.published[j]);
    assert Settled(end, end.published[j], |end.published[j].visited|);
    assert Concerns(end, end.published[j], i, m);
    GoneMeans(end, i, end.published[j].looked[m]);
  }

  lemma GoneMeans(s: State, i: nat, n: nat)
    requires i < |s.published| && Gone(s, i, n)
    ensures Consumed(s, i) || Replaced(s, i, n)
  {
  }

  lemma ProperPublications(s: State, evs: seq<Event>)
    requires Init(s) && Shape(s) && Runnable(s, evs)
    ensures forall k :: 0 <= k < |Run(s, evs).published| ==> Proper(Run(s, evs).generation, Run(s, evs).published[k])
  {
    InitInv(s);
    RunKeeps(s.table, LiveCount(s.table), s, evs);
  }

  // ---------------------------------------------------------------- two scans before either publication

  function Writes(t: nat): Event { Observe(t, WRITE, 0, 1, t, [0, 1]) }

  lemma EmptyIsNoConflict(o: Observation)
    ensures !Conflicts(0, o)
  {
  }

  lemma RunHead(s: State, evs: seq<Event>, s': State)
    requires evs != [] && Shape(s) && Enabled(s, evs[0]) && s' == Step(s, evs[0]) && Shape(s') && Runnable(s', evs[1..])
    ensures Runnable(s, evs) && Run(s, evs) == Run(s', evs[1..])
  {
  }

  /** Two probes of empty slots. */
  lemma ProbesFindNothing(s: State, t: nat, rest: seq<Event>, s': State)
    requires Shape(s) && t < |s.threads| && s.threads[t].Scanning? && s.threads[t].probe == 0
    requires |s.table| == 2 && s.table == [0, 0] && s.threads[t].o.visited == [0, 1]
    requires var o := s.threads[t].o; var n := |s.published|;
             s' == s.(threads := s.threads[t := Scanning(o.(looked := o.looked + [n] + [n]), 2)])
    requires Shape(s') && Runnable(s', rest)
    ensures Runnable(s, [Tick(t), Tick(t)] + rest) && Run(s, [Tick(t), Tick(t)] + rest) == Run(s', rest)
  {
    hide Conflicts, DecodeSampled, PackSampled, Runnable, Run;
    var o := s.threads[t].o;
    EmptyIsNoConflict(o);
    EmptyIsNoConflict(o.(looked := o.looked + [|s.published|]));
    StepShape(s, Tick(t));
    var s1 := Step(s, Tick(t));
    assert s1.threads[t] == PastProbe(s, o, 0);
    assert s'.threads == s1.threads[t := s'.threads[t]];
    assert ([Tick(t), Tick(t)] + rest)[1..] == [Tick(t)] + rest && ([Tick(t)] + rest)[1..] == rest;
    RunHead(s1, [Tick(t)] + rest, s');
    RunHead(s, [Tick(t), Tick(t)] + rest, s1);
  }

  function Written(t: nat): Observation { ObservationOf(1, t, 0, WRITE, 0, 1, t, [0, 1], 0) }

  /** Both have scanned; neither has published. */
  lemma BothPublish(s: State, a: Observation, b: Observation)
    requires Shape(s) && s.table == [0, 0] && s.ids == [0, 1] && s.published == [] && s.consumed == []
    requires s.threads == [Scanning(a, 2), Scanning(b, 2)]
    requires |a.visited| == 2 == |b.visited| && a.slot == 0 && b.slot == 1
    ensures Runnable(s, [Tick(0), Tick(1)])
    ensures var end := Run(s, [Tick(0), Tick(1)]);
            end.published == [a, b] && end.consumed == [] && end.reports == s.reports && end.lost == s.lost
  {
    hide Conflicts, DecodeSampled, PackSampled, Runnable, Run;
    StepShape(s, Tick(0));
    var s1 := Step(s, Tick(0));
    StepShape(s1, Tick(1));
    var s2 := Step(s1, Tick(1));
    assert [Tick(0), Tick(1)][1..] == [Tick(1)] && [Tick(1)][1..] == [];
    RunNothing(s2);
    RunHead(s1, [Tick(1)], s2);
    RunHead(s, [Tick(0), Tick(1)], s1);
  }

  lemma RunNothing(s: State)
    requires Shape(s)
    ensures Runnable(s, []) && Run(s, []) == s
  {
  }

  lemma BothScan(s: State, a: Observation, b: Observation)
    requires Shape(s) && s.table == [0, 0] && s.ids == [0, 1] && s.published == [] && s.consumed == []
    requires s.threads == [Scanning(a, 0), Scanning(b, 0)] && a.looked == [] && b.looked == []
    requires a.visited == [0, 1] && b.visited == [0, 1] && a.slot == 0 && b.slot == 1
    ensures var evs := [Tick(0), Tick(0)] + ([Tick(1), Tick(1)] + [Tick(0), Tick(1)]);
            && Runnable(s, evs)
            && var end := Run(s, evs);
               && end.published == [a.(looked := [0, 0]), b.(looked := [0, 0])]
               && end.consumed == [] && end.reports == s.reports && end.lost == s.lost
  {
    hide Conflicts, DecodeSampled, PackSampled, Runnable, Run;
    var a', b' := a.(looked := [0, 0]), b.(looked := [0, 0]);
    var s1 := s.(threads := [Scanning(a', 2), Scanning(b, 0)]);
    var s2 := s.(threads := [Scanning(a', 2), Scanning(b', 2)]);
    assert ThreadFits(s.generation, 2, s.threads[0]) && ThreadFits(s.generation, 2, s.threads[1]);
    assert Shape(s1) && Shape(s2);
    assert s1.threads == s.threads[0 := Scanning(a', 2)] && s2.threads == s1.threads[1 := Scanning(b', 2)];
    assert a.looked + [0] + [0] == [0, 0];
    BothPublish(s2, a', b');
    ProbesFindNothing(s1, 1, [Tick(0), Tick(1)], s2);
    ProbesFindNothing(s, 0, [Tick(1), Tick(1)] + [Tick(0), Tick(1)], s1);
  }

  /** What begun before the scan is needed for: two threads that both scan before either publishes miss each
      other. Their ranges race and both scans cover the table, yet nothing is consumed, reported or lost. */
  lemma ScansMayMissEachOther() returns (s: State, evs: seq<Event>)
    ensures Init(s) && Shape(s) && Runnable(s, evs)
    ensures var end := Run(s, evs);
            && |end.published| == 2 && Race(end.published[0], end.published[1])
            && end.published[0].visited == end.published[1].visited == [0, 1] && |s.table| == 2
            && end.consumed == [] && end.reports == 0 && end.lost == 0
  {
    hide Conflicts, DecodeSampled, PackSampled, Runnable, Run;
    s := State(1, [0, 0], 0, [Idle, Idle], 0, [0, 1], [], [], 0);
    var rest := [Tick(0), Tick(0)] + ([Tick(1), Tick(1)] + [Tick(0), Tick(1)]);
    evs := [Writes(0), Writes(1)] + rest;
    StepShape(s, Writes(0));
    var s1 := Step(s, Writes(0));
    StepShape(s1, Writes(1));
    var s2 := Step(s1, Writes(1));
    assert s2.threads == [Scanning(Written(0), 0), Scanning(Written(1), 0)];
    BothScan(s2, Written(0), Written(1));
    assert ([Writes(1)] + rest)[1..] == rest && evs[1..] == [Writes(1)] + rest;
    RunHead(s1, [Writes(1)] + rest, s2);
    RunHead(s, evs, s1);
    assert InRange(0, 0, 1);
  }
}
