/** The benchmark's consumable watchpoints: every observed access first scans the table, consuming
    conflicting entries by compare-and-swap and counting each success, and then publishes itself by
    exchange. Atomic operations of all work items interleave arbitrarily. The words have the layout of
    the library's sampled watchpoints, with the work item as owner. */
module LoomWatchpoints {
  import opened Arith
  import opened ShadowWords

  /** One observed range, its packed word, where it will publish and the indices it scans. `begun` and
      `looked[m]` (auxiliary) are the numbers of publications when the scan began and when it was done with
      probe m. */
  datatype Observation = Observation(item: nat, epoch: nat, kind: nat, start: nat, count: nat, word: nat,
                                     slot: nat, visited: seq<nat>, begun: nat, looked: seq<nat>)

  datatype Thread =
    | Idle
    | Scanning(o: Observation, probe: nat)
    | Comparing(o: Observation, probe: nat, seen: nat)
    | Counting(o: Observation, probe: nat)

  /** A successful compare-and-swap: which publication was consumed, and for whom. */
  datatype Consumption = Consumption(id: nat, scan: Observation)

  /** `ids[i]` names the publication held by slot i: ids below |table| are the initial words, later ones
      index `published`. `published`, `ids`, `consumed` and `lost` are auxiliary; `lost` counts the live
      entries displaced by an exchange. */
  datatype State = State(generation: nat, table: seq<nat>, epoch: nat, threads: seq<Thread>, reports: nat,
                         ids: seq<nat>, published: seq<Observation>, consumed: seq<Consumption>, lost: nat)

  datatype Event =
    | Observe(t: nat, kind: nat, start: nat, count: nat, slot: nat, visited: seq<nat>)
    | Barrier
    | Tick(t: nat)

  /** Valid and not consumed: the low two bits are 01. */
  predicate Live(word: nat) { word % 4 == 1 }

  function Consume(word: nat): nat { word + 2 }

  predicate Conflicts(prior: nat, o: Observation) {
    var p, current := DecodeSampled(prior), DecodeSampled(o.word);
    && p.valid && !p.consumed && p.epoch == current.epoch && p.generation == current.generation
    && p.owner != o.item && (o.kind == READ ==> p.kind != READ)
    && RangesOverlap(o.start, o.count, p.start, p.count)
  }

  lemma ConflictsAreLive(prior: nat, o: Observation)
    requires Conflicts(prior, o)
    ensures Live(prior)
  {
    LowBits(prior);
  }

  lemma LowBits(word: nat)
    requires word % 2 != 0 && word / 2 % 2 == 0
    ensures Live(word)
  {
    Recombine(word, 2);
    Recombine(word / 2, 2);
    Divide(4, word / 2 / 2, 1);
  }

  /** Setting the consumed bit changes no other field. */
  lemma ConsumeKeepsFields(word: nat)
    requires Live(word)
    ensures DecodeSampled(Consume(word)) == DecodeSampled(word).(consumed := true)
    ensures !Live(Consume(word))
  {
    var w := Consume(word);
    assert w / 4 == word / 4;
    Nested(w, 4, 0x8);
    Nested(word, 4, 0x8);
    Nested(w, 4, 0x2000);
    Nested(word, 4, 0x2000);
    Nested(w, 4, 0x80_0000);
    Nested(word, 4, 0x80_0000);
    Nested(w, 4, 0x800_0000_0000);
    Nested(word, 4, 0x800_0000_0000);
    Nested(w, 4, 0x200_0000_0000_0000);
    Nested(word, 4, 0x200_0000_0000_0000);
  }

  /** Ranges are cut at the last encodable cell. */
  function Clip(start: nat, count: nat): nat
    requires start <= MAX_START
  {
    if count > MAX_START - start + 1 then MAX_START - start + 1 else count
  }

  /** What is left are the encodable cells of the range. */
  lemma ClippedCells(start: nat, count: nat, cell: nat)
    requires start <= MAX_START
    ensures InRange(cell, start, Clip(start, count)) <==> InRange(cell, start, count) && cell <= 0x3FFF
  {
  }

  /** Empty ranges and those that begin beyond the encodable cells are not observed. */
  predicate Ignored(start: nat, count: nat) { count == 0 || start > MAX_START }

  function ObservationOf(generation: nat, item: nat, epoch: nat, kind: nat, start: nat, count: nat, slot: nat,
                         visited: seq<nat>, begun: nat): Observation
    requires start <= MAX_START
  {
    var clipped := Clip(start, count);
    Observation(item, epoch, kind, start, clipped,
                PackSampled(kind, item, epoch, generation, start, clipped, false), slot, visited, begun, [])
  }

  lemma FreshWordsAreLive(kind: nat, owner: nat, epoch: nat, generation: nat, start: nat, count: nat)
    ensures Live(PackSampled(kind, owner, epoch, generation, start, count, false))
  {
    var stored := (if count == 0 then 0 else count - 1) % 0x20;
    Divide(4, kind % 8 + owner % OWNERS * 0x8 + epoch % EPOCHS * 0x2000 + generation % GENERATIONS * 0x80_0000
              + start % 0x4000 * 0x800_0000_0000 + stored * 0x200_0000_0000_0000, 1);
  }

  /** The word is the range's, and the range fits the encoding. */
  ghost predicate Proper(generation: nat, o: Observation) {
    && o.start <= MAX_START && 1 <= o.count <= MAX_COUNT && 0 < o.kind < 8
    && o.word == PackSampled(o.kind, o.item, o.epoch, generation, o.start, o.count, false)
  }

  // ---------------------------------------------------------------- the machine

  ghost predicate Fits(generation: nat, n: nat, o: Observation) {
    && Proper(generation, o) && Live(o.word) && o.slot < n && forall i :: 0 <= i < |o.visited| ==> o.visited[i] < n
  }

  ghost predicate ThreadFits(generation: nat, n: nat, th: Thread) {
    match th
    case Idle => true
    case Scanning(o, probe) => Fits(generation, n, o) && probe <= |o.visited|
    case Comparing(o, probe, seen) => Fits(generation, n, o) && probe < |o.visited| && Live(seen) && Conflicts(seen, o)
    case Counting(o, probe) => Fits(generation, n, o) && probe < |o.visited|
  }

  ghost predicate Shape(s: State) {
    && |s.ids| == |s.table|
    && forall t :: 0 <= t < |s.threads| ==> ThreadFits(s.generation, |s.table|, s.threads[t])
  }

  ghost predicate Enabled(s: State, ev: Event) {
    match ev
    case Observe(t, kind, start, count, slot, visited) =>
      && t < |s.threads| && s.threads[t].Idle? && count <= MAX_COUNT && 0 < kind < 8
      && slot < |s.table| && forall i :: 0 <= i < |visited| ==> visited[i] < |s.table|
    case Barrier => forall t :: 0 <= t < |s.threads| ==> s.threads[t].Idle?
    case Tick(t) => t < |s.threads| && !s.threads[t].Idle?
  }

  ghost function Goto(s: State, t: nat, th: Thread): State
    requires t < |s.threads|
  {
    s.(threads := s.threads[t := th])
  }

  /** On to the next probe. */
  ghost function PastProbe(s: State, o: Observation, probe: nat): Thread {
    Scanning(o.(looked := o.looked + [|s.published|]), probe + 1)
  }

  ghost function TickStep(s: State, t: nat): State
    requires Shape(s) && t < |s.threads| && !s.threads[t].Idle?
  {
    match s.threads[t]
    case Scanning(o, probe) =>
      if probe < |o.visited| then
        var seen := s.table[o.visited[probe]];
        Goto(s, t, if Conflicts(seen, o) then Comparing(o, probe, seen) else PastProbe(s, o, probe))
      else
        Goto(s.(table := s.table[o.slot := o.word],
                ids := s.ids[o.slot := |s.table| + |s.published|],
                published := s.published + [o],
                lost := s.lost + if Live(s.table[o.slot]) then 1 else 0), t, Idle)
    case Comparing(o, probe, seen) =>
      var i := o.visited[probe];
      if s.table[i] == seen then
        Goto(s.(table := s.table[i := Consume(seen)], consumed := s.consumed + [Consumption(s.ids[i], o)]),
             t, Counting(o, probe))
      else Goto(s, t, PastProbe(s, o, probe))
    case Counting(o, probe) => Goto(s.(reports := s.reports + 1), t, PastProbe(s, o, probe))
  }

  ghost function Step(s: State, ev: Event): State
    requires Shape(s) && Enabled(s, ev)
  {
    match ev
    case Observe(t, kind, start, count, slot, visited) =>
      if Ignored(start, count) then s
      else
        var o := ObservationOf(s.generation, t, s.epoch, kind, start, count, slot, visited, |s.published|);
        Goto(s, t, Scanning(o, 0))
    case Barrier => s.(epoch := s.epoch + 1)
    case Tick(t) => TickStep(s, t)
  }

  ghost predicate Init(s: State) {
    && |s.ids| == |s.table| && (forall i :: 0 <= i < |s.ids| ==> s.ids[i] == i)
    && (forall t :: 0 <= t < |s.threads| ==> s.threads[t].Idle?)
    && s.reports == 0 && s.published == [] && s.consumed == [] && s.lost == 0
  }

  lemma StepShape(s: State, ev: Event)
    requires Shape(s) && Enabled(s, ev)
    ensures Shape(Step(s, ev))
  {
    hide DecodeSampled, PackSampled;
    match ev
    case Observe(t, kind, start, count, slot, visited) =>
      if !Ignored(start, count) {
        FreshWordsAreLive(kind, t, s.epoch, s.generation, start, Clip(start, count));
      }
    case Barrier =>
    case Tick(t) =>
      if s.threads[t].Scanning? && s.threads[t].probe < |s.threads[t].o.visited|
         && Conflicts(s.table[s.threads[t].o.visited[s.threads[t].probe]], s.threads[t].o) {
        ConflictsAreLive(s.table[s.threads[t].o.visited[s.threads[t].probe]], s.threads[t].o);
      }
  }

  ghost predicate Runnable(s: State, evs: seq<Event>)
    requires Shape(s)
    decreases |evs|
  {
    evs == [] || (Enabled(s, evs[0]) && (StepShape(s, evs[0]);
                                         Runnable(Step(s, evs[0]), evs[1..])))
  }

  ghost function Run(s: State, evs: seq<Event>): (s': State)
    requires Shape(s) && Runnable(s, evs)
    ensures Shape(s')
    decreases |evs|
  {
    if evs == [] then s else (StepShape(s, evs[0]); Run(Step(s, evs[0]), evs[1..]))
  }

  // ---------------------------------------------------------------- accounting

  function LiveCount(table: seq<nat>): nat {
    if table == [] then 0 else LiveCount(table[..|table| - 1]) + if Live(table[|table| - 1]) then 1 else 0
  }

  function PendingCount(threads: seq<Thread>): nat {
    if threads == [] then 0
    else PendingCount(threads[..|threads| - 1]) + if threads[|threads| - 1].Counting? then 1 else 0
  }

  lemma {:induction false} LiveCountUpdate(table: seq<nat>, i: nat, word: nat)
    requires i < |table|
    ensures LiveCount(table[i := word]) + (if Live(table[i]) then 1 else 0)
         == LiveCount(table) + (if Live(word) then 1 else 0)
  {
    var k := |table| - 1;
    if i < k {
      LiveCountUpdate(table[..k], i, word);
      assert table[i := word][..k] == table[..k][i := word];
    } else {
      assert table[i := word][..k] == table[..k];
    }
  }

  lemma {:induction false} PendingCountUpdate(threads: seq<Thread>, t: nat, th: Thread)
    requires t < |threads|
    ensures PendingCount(threads[t := th]) + (if threads[t].Counting? then 1 else 0)
         == PendingCount(threads) + (if th.Counting? then 1 else 0)
  {
    var k := |threads| - 1;
    if t < k {
      PendingCountUpdate(threads[..k], t, th);
      assert threads[t := th][..k] == threads[..k][t := th];
    } else {
      assert threads[t := th][..k] == threads[..k];
    }
  }

  /** Nothing is created or destroyed: what was live initially or published is counted, waiting to be
      counted, still live, or was displaced while live. */
  ghost predicate Conserved(initialLive: nat, s: State) {
    initialLive + |s.published| == s.reports + PendingCount(s.threads) + LiveCount(s.table) + s.lost
  }

  lemma StepConserves(initialLive: nat, s: State, ev: Event)
    requires Shape(s) && Enabled(s, ev) && Conserved(initialLive, s)
    ensures Conserved(initialLive, Step(s, ev))
  {
    hide Conflicts, PackSampled;
    match ev
    case Observe(t, kind, start, count, slot, visited) =>
      if !Ignored(start, count) {
        var o := ObservationOf(s.generation, t, s.epoch, kind, start, count, slot, visited, |s.published|);
        PendingCountUpdate(s.threads, t, Scanning(o, 0));
      }
    case Barrier =>
    case Tick(t) =>
      var s' := TickStep(s, t);
      PendingCountUpdate(s.threads, t, s'.threads[t]);
      if s.threads[t].Scanning? && s.threads[t].probe == |s.threads[t].o.visited| {
        LiveCountUpdate(s.table, s.threads[t].o.slot, s.threads[t].o.word);
      } else if s.threads[t].Comparing? {
        LiveCountUpdate(s.table, s.threads[t].o.visited[s.threads[t].probe], Consume(s.threads[t].seen));
      }
  }

  // ---------------------------------------------------------------- who is reported

  /** The word a publication stored. */
  ghost function WordOfId(initial: seq<nat>, s: State, id: nat): nat
    requires id < |initial| + |s.published|
  {
    if id < |initial| then initial[id] else s.published[id - |initial|].word
  }

  ghost predicate SlotInv(initial: seq<nat>, s: State, i: nat)
    requires |s.ids| == |s.table| == |initial| && i < |s.table|
  {
    && s.ids[i] < |initial| + |s.published|
    && (Live(s.table[i]) ==> s.table[i] == WordOfId(initial, s, s.ids[i]))
    && (Live(s.table[i]) ==> forall c :: 0 <= c < |s.consumed| ==> s.consumed[c].id != s.ids[i])
  }

  ghost predicate ConsumptionInv(initial: seq<nat>, s: State, c: nat)
    requires c < |s.consumed|
  {
    && s.consumed[c].id < |initial| + |s.published|
    && Conflicts(WordOfId(initial, s, s.consumed[c].id), s.consumed[c].scan)
    && Proper(s.generation, s.consumed[c].scan)
  }

  ghost predicate Inv(initial: seq<nat>, s: State) {
    && Shape(s) && |initial| == |s.table|
    && (forall i :: 0 <= i < |s.table| ==> SlotInv(initial, s, i))
    && (forall i, j :: 0 <= i < j < |s.table| ==> s.ids[i] != s.ids[j])
    && (forall c :: 0 <= c < |s.consumed| ==> ConsumptionInv(initial, s, c))
    && (forall k :: 0 <= k < |s.published| ==> Proper(s.generation, s.published[k]))
    && (forall c, d :: 0 <= c < d < |s.consumed| ==> s.consumed[c].id != s.consumed[d].id)
    && |s.consumed| == s.reports + PendingCount(s.threads)
  }

  lemma PublishKeeps(initial: seq<nat>, s: State, t: nat)
    requires Inv(initial, s) && t < |s.threads| && s.threads[t].Scanning?
    requires s.threads[t].probe == |s.threads[t].o.visited|
    ensures Inv(initial, TickStep(s, t))
  {
    hide Conflicts, Proper;
    var s' := TickStep(s, t);
    PendingCountUpdate(s.threads, t, Idle);
    forall i | 0 <= i < |s'.table| ensures SlotInv(initial, s', i) {
      assert SlotInv(initial, s, i);
      forall c | 0 <= c < |s'.consumed| ensures Live(s'.table[i]) ==> s'.consumed[c].id != s'.ids[i] {
        assert ConsumptionInv(initial, s, c);
      }
    }
    forall c | 0 <= c < |s'.consumed| ensures ConsumptionInv(initial, s', c) {
      assert ConsumptionInv(initial, s, c);
    }
    forall i, j | 0 <= i < j < |s'.table| ensures s'.ids[i] != s'.ids[j] {
      assert SlotInv(initial, s, i) && SlotInv(initial, s, j);
    }
    StepShape(s, Tick(t));
  }

  lemma CompareKeeps(initial: seq<nat>, s: State, t: nat)
    requires Inv(initial, s) && t < |s.threads| && s.threads[t].Comparing?
    ensures Inv(initial, TickStep(s, t))
  {
    hide Conflicts, Proper;
    var s', i := TickStep(s, t), s.threads[t].o.visited[s.threads[t].probe];
    PendingCountUpdate(s.threads, t, s'.threads[t]);
    forall j | 0 <= j < |s'.table| ensures SlotInv(initial, s', j) {
      assert SlotInv(initial, s, j);
    }
    assert SlotInv(initial, s, i);
    forall c | 0 <= c < |s'.consumed| ensures ConsumptionInv(initial, s', c) {
      if c < |s.consumed| { assert ConsumptionInv(initial, s, c); }
    }
    StepShape(s, Tick(t));
  }

  /** Steps that leave the table and the record of consumptions alone. */
  lemma QuietKeeps(initial: seq<nat>, s: State, s': State)
    requires Inv(initial, s) && Shape(s')
    requires s'.generation == s.generation && s'.table == s.table && s'.ids == s.ids
    requires s'.published == s.published && s'.consumed == s.consumed
    requires s'.reports + PendingCount(s'.threads) == s.reports + PendingCount(s.threads)
    ensures Inv(initial, s')
  {
    forall i | 0 <= i < |s'.table| ensures SlotInv(initial, s', i) { assert SlotInv(initial, s, i); }
    forall c | 0 <= c < |s'.consumed| ensures ConsumptionInv(initial, s', c) { assert ConsumptionInv(initial, s, c); }
  }

  lemma StepKeeps(initial: seq<nat>, s: State, ev: Event)
    requires Inv(initial, s) && Enabled(s, ev)
    ensures Inv(initial, Step(s, ev))
  {
    hide Conflicts, SlotInv, ConsumptionInv, PackSampled;
    StepShape(s, ev);
    match ev
    case Observe(t, kind, start, count, slot, visited) =>
      if !Ignored(start, count) {
        var o := ObservationOf(s.generation, t, s.epoch, kind, start, count, slot, visited, |s.published|);
        PendingCountUpdate(s.threads, t, Scanning(o, 0));
      }
      QuietKeeps(initial, s, Step(s, ev));
    case Barrier => QuietKeeps(initial, s, Step(s, ev));
    case Tick(t) =>
      if s.threads[t].Scanning? && s.threads[t].probe == |s.threads[t].o.visited| {
        PublishKeeps(initial, s, t);
      } else if s.threads[t].Comparing? {
        CompareKeeps(initial, s, t);
      } else {
        PendingCountUpdate(s.threads, t, TickStep(s, t).threads[t]);
        QuietKeeps(initial, s, TickStep(s, t));
      }
  }

  lemma {:induction false} RunKeeps(initial: seq<nat>, initialLive: nat, s: State, evs: seq<Event>)
    requires Shape(s) && Inv(initial, s) && Conserved(initialLive, s) && Runnable(s, evs)
    ensures Inv(initial, Run(s, evs)) && Conserved(initialLive, Run(s, evs))
    decreases |evs|
  {
    hide Inv, Conserved, Step, Enabled, Shape;
    if evs != [] {
      StepShape(s, evs[0]);
      KeepsBoth(initial, initialLive, s, evs[0]);
      RunKeeps(initial, initialLive, Step(s, evs[0]), evs[1..]);
    }
  }

  lemma KeepsBoth(initial: seq<nat>, initialLive: nat, s: State, ev: Event)
    requires Inv(initial, s) && Conserved(initialLive, s) && Enabled(s, ev)
    ensures Inv(initial, Step(s, ev)) && Conserved(initialLive, Step(s, ev))
  {
    hide Conserved, Step;
    StepKeeps(initial, s, ev);
    StepConserves(initialLive, s, ev);
  }

  lemma {:induction false} NobodyPending(threads: seq<Thread>)
    requires forall t :: 0 <= t < |threads| ==> threads[t].Idle?
    ensures PendingCount(threads) == 0
  {
    if threads != [] { NobodyPending(threads[..|threads| - 1]); }
  }

  lemma InitInv(s: State)
    requires Init(s)
    ensures Inv(s.table, s) && Conserved(LiveCount(s.table), s)
  {
    NobodyPending(s.threads);
  }

  /** Conservation, in every interleaving: publications and initially live entries are exactly the
      reports issued, the successful swaps not yet counted, the live entries, and the live entries
      displaced by exchanges. So reports never exceed what was published or live to begin with. */
  lemma ReportsAreConserved(s: State, evs: seq<Event>)
    requires Init(s) && Shape(s) && Runnable(s, evs)
    ensures var end := Run(s, evs);
            && LiveCount(s.table) + |end.published|
               == end.reports + PendingCount(end.threads) + LiveCount(end.table) + end.lost
            && end.reports + PendingCount(end.threads) + LiveCount(end.table) <= |end.published| + LiveCount(s.table)
  {
    InitInv(s);
    RunKeeps(s.table, LiveCount(s.table), s, evs);
  }

  /** What a conflict between two observed ranges of one launch means: another work item, the same
      (10-bit) epoch, at least one not a read, a common cell. */
  ghost predicate Race(prior: Observation, o: Observation) {
    && prior.epoch % EPOCHS == o.epoch % EPOCHS && prior.item % OWNERS != o.item
    && (o.kind == READ ==> prior.kind != READ)
    && exists c: nat :: InRange(c, o.start, o.count) && InRange(c, prior.start, prior.count)
  }

  lemma ConflictMeansRace(generation: nat, prior: Observation, o: Observation)
    requires Proper(generation, prior) && Proper(generation, o)
    ensures Conflicts(prior.word, o) <==> Race(prior, o)
  {
    hide PackSampled, DecodeSampled;
    FittingRoundTrip(prior.kind, prior.item, prior.epoch, generation, prior.start, prior.count);
    FittingRoundTrip(o.kind, o.item, o.epoch, generation, o.start, o.count);
    OverlapMeansSharedCell(o.start, o.count, prior.start, prior.count);
  }

  /** No publication is consumed twice, every consumption is counted (at once, or when its thread takes
      its next step), and a consumed publication of this run raced with the access that consumed it. */
  lemma EachPublicationIsReportedAtMostOnce(s: State, evs: seq<Event>)
    requires Init(s) && Shape(s) && Runnable(s, evs)
    ensures var end := Run(s, evs);
            && |end.consumed| == end.reports + PendingCount(end.threads)
            && (forall c, d :: 0 <= c < d < |end.consumed| ==> end.consumed[c].id != end.consumed[d].id)
            && (forall c :: 0 <= c < |end.consumed| ==>
                  var id := end.consumed[c].id;
                  && id < |s.table| + |end.published|
                  && (id < |s.table| ==> Live(s.table[id]))
                  && (|s.table| <= id ==> Race(end.published[id - |s.table|], end.consumed[c].scan)))
  {
    hide Conflicts, Race, Proper;
    InitInv(s);
    RunKeeps(s.table, LiveCount(s.table), s, evs);
    var end := Run(s, evs);
    forall c | 0 <= c < |end.consumed|
      ensures end.consumed[c].id < |s.table| + |end.published|
      ensures end.consumed[c].id < |s.table| ==> Live(s.table[end.consumed[c].id])
      ensures |s.table| <= end.consumed[c].id ==>
          Race(end.published[end.consumed[c].id - |s.table|], end.consumed[c].scan)
    {
      var id := end.consumed[c].id;
      assert ConsumptionInv(s.table, end, c);
      if id < |s.table| {
        ConflictsAreLive(s.table[id], end.consumed[c].scan);
      } else {
        ConflictMeansRace(end.generation, end.published[id - |s.table|], end.consumed[c].scan);
      }
    }
  }
}
