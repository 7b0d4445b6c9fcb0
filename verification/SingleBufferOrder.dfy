/** The single-buffer attention kernel in program order, and which barriers the detector needs. */
module SingleBufferOrder {
  import opened ShadowHistory
  import opened ShadowWords
  import opened SingleBufferSchedule
  import opened BarrierRemoval
  import opened Loops
  import opened ProgramOrder
  import opened ProgramRuns
  import Lanes = AttentionSchedule
  import S = CleanPrograms
  import D = DetectorMachine

  const FRAGMENTS: nat := 8

  function ScoreStores(g: nat, lane: nat): seq<Op> {
    Flat(Lanes.ELEMENTS, elem => [StoreScore(g, Lanes.AccumulatorRow(lane, elem), lane % 16)])
  }

  function MaxLoads(g: nat, row: nat): seq<Op> { Flat(KEYS, k => [LoadScore(g, row, k, false)]) }

  function WeightStores(g: nat, row: nat): seq<Op> {
    Flat(KEYS, k => [LoadScore(g, row, k, true), StoreWeight(g, row, k)])
  }

  function SoftmaxRow(g: nat, row: nat): seq<Op> {
    MaxLoads(g, row) + [StoreOldScale(g, row)] + WeightStores(g, row) + [StoreSum(g, row)]
  }

  function Softmax(g: nat, lane: nat): seq<Op> {
    if lane == 0 then Flat(ROWS, row => SoftmaxRow(g, row)) else []
  }

  function ScaleLoads(g: nat, lane: nat): seq<Op> {
    Flat(Lanes.ELEMENTS, elem => [LoadOldScale(g, Lanes.AccumulatorRow(lane, elem))])
  }

  function WeightLoads(g: nat, lane: nat): seq<Op> {
    Flat(Lanes.ELEMENTS, elem => [LoadWeight(g, lane % 16, Lanes.WeightKey(lane, elem))])
  }

  function SumLoads(g: nat, lane: nat): seq<Op> {
    Flat(Lanes.ELEMENTS, elem => [LoadSum(g, Lanes.AccumulatorRow(lane, elem))])
  }

  function Reload(g: nat, op: Op): seq<Op> { if g == 0 then [op] else [] }

  function Rescaling(g: nat, lane: nat): seq<Op> {
    Repeat(FRAGMENTS, ScaleLoads(g, lane)) + WeightLoads(g, lane) + Reload(g, StoreV(lane))
  }

  function OpsInTile(thread: nat, phase: nat): seq<Op> {
    var g, lane := thread / Lanes.WAVE, thread % Lanes.WAVE;
    if phase < 16 && phase % 2 == 0 then Reload(g, StoreK(lane))
    else if phase < 16 then [LoadK(lane)]
    else if phase == 16 then ScoreStores(g, lane)
    else if phase == 17 then Softmax(g, lane)
    else if phase == 18 then Rescaling(g, lane)
    else if phase % 2 == 0 then Reload(g, StoreV(lane))
    else [LoadV(lane)]
  }

  function KernelOps(tiles: nat, thread: nat, epoch: nat): seq<Op> {
    var g, lane := thread / Lanes.WAVE, thread % Lanes.WAVE;
    if epoch < INTERVALS * tiles then OpsInTile(thread, epoch % INTERVALS)
    else if epoch == INTERVALS * tiles then Repeat(FRAGMENTS, SumLoads(g, lane))
    else []
  }

  // ---------------------------------------------------------------- the lists are the schedule

  lemma RowsBelow(lane: nat)
    requires lane < Lanes.WAVE
    ensures forall row: nat :: RowOfLane(row, lane) ==> row < ROWS
  {
  }

  lemma ScoreStoresHas(g: nat, lane: nat, op: Op)
    ensures op in ScoreStores(g, lane)
       <==> op.StoreScore? && op.subgroup == g && op.key == lane % 16 && RowOfLane(op.row, lane)
  {
    hide Flat;
    var step := (elem: nat) => [StoreScore(g, Lanes.AccumulatorRow(lane, elem), lane % 16)];
    FlatHas(Lanes.ELEMENTS, step, op);
    if op.StoreScore? && RowOfLane(op.row, lane) {
      var elem: nat :| elem < Lanes.ELEMENTS && op.row == Lanes.AccumulatorRow(lane, elem);
      assert step(elem) == [StoreScore(g, op.row, lane % 16)];
    }
  }

  lemma MaxLoadsHas(g: nat, row: nat, op: Op)
    ensures op in MaxLoads(g, row)
       <==> op.LoadScore? && op.subgroup == g && op.row == row && op.key < KEYS && !op.forWeight
  {
    hide Flat;
    var step := (k: nat) => [LoadScore(g, row, k, false)];
    FlatHas(KEYS, step, op);
    if op.LoadScore? { assert step(op.key) == [LoadScore(g, row, op.key, false)]; }
  }

  lemma WeightStoresHas(g: nat, row: nat, op: Op)
    ensures op in WeightStores(g, row)
       <==> ((op.LoadScore? && op.forWeight) || op.StoreWeight?) && op.subgroup == g && op.row == row && op.key < KEYS
  {
    hide Flat;
    var step := (k: nat) => [LoadScore(g, row, k, true), StoreWeight(g, row, k)];
    FlatHas(KEYS, step, op);
    if op.LoadScore? || op.StoreWeight? {
      assert step(op.key) == [LoadScore(g, row, op.key, true), StoreWeight(g, row, op.key)];
    }
  }

  lemma SoftmaxRowHas(g: nat, row: nat, op: Op)
    requires g < 2 && row < ROWS
    ensures op in SoftmaxRow(g, row)
       <==> && InBounds(op) && (op.LoadScore? || op.StoreWeight? || op.StoreOldScale? || op.StoreSum?)
            && op.subgroup == g && op.row == row
  {
    hide MaxLoads, WeightStores;
    MaxLoadsHas(g, row, op);
    WeightStoresHas(g, row, op);
  }

  lemma SoftmaxHas(g: nat, lane: nat, op: Op)
    requires g < 2
    ensures op in Softmax(g, lane)
       <==> && InBounds(op) && lane == 0
            && (op.LoadScore? || op.StoreWeight? || op.StoreOldScale? || op.StoreSum?) && op.subgroup == g
  {
    hide SoftmaxRow, Flat;
    var step := (row: nat) => SoftmaxRow(g, row);
    FlatHas(ROWS, step, op);
    if op in Softmax(g, lane) {
      var row: nat :| row < ROWS && op in step(row);
      SoftmaxRowHas(g, row, op);
    }
    if (op.LoadScore? || op.StoreWeight? || op.StoreOldScale? || op.StoreSum?) && InBounds(op) {
      SoftmaxRowHas(g, op.row, op);
      assert op in SoftmaxRow(g, op.row) ==> op in step(op.row);
    }
  }

  lemma ScaleLoadsHas(g: nat, lane: nat, op: Op)
    ensures op in ScaleLoads(g, lane) <==> op.LoadOldScale? && op.subgroup == g && RowOfLane(op.row, lane)
  {
    hide Flat;
    var step := (elem: nat) => [LoadOldScale(g, Lanes.AccumulatorRow(lane, elem))];
    FlatHas(Lanes.ELEMENTS, step, op);
    if op.LoadOldScale? && RowOfLane(op.row, lane) {
      var elem: nat :| elem < Lanes.ELEMENTS && op.row == Lanes.AccumulatorRow(lane, elem);
      assert step(elem) == [LoadOldScale(g, op.row)];
    }
  }

  ghost predicate KeyOfLane(key: nat, lane: nat) {
    exists elem :: 0 <= elem < Lanes.ELEMENTS && key == Lanes.WeightKey(lane, elem)
  }

  lemma KeysBelow(lane: nat)
    requires lane < Lanes.WAVE
    ensures forall key: nat :: KeyOfLane(key, lane) ==> key < KEYS
  {
  }

  lemma WeightLoadsHas(g: nat, lane: nat, op: Op)
    ensures op in WeightLoads(g, lane)
       <==> op.LoadWeight? && op.subgroup == g && op.row == lane % 16 && KeyOfLane(op.key, lane)
  {
    hide Lanes.WeightKey, Flat;
    var step := (elem: nat) => [LoadWeight(g, lane % 16, Lanes.WeightKey(lane, elem))];
    FlatHas(Lanes.ELEMENTS, step, op);
    if op.LoadWeight? && KeyOfLane(op.key, lane) {
      var elem: nat :| elem < Lanes.ELEMENTS && op.key == Lanes.WeightKey(lane, elem);
      assert step(elem) == [LoadWeight(g, lane % 16, op.key)];
    }
  }

  lemma SumLoadsHas(g: nat, lane: nat, op: Op)
    ensures op in SumLoads(g, lane) <==> op.LoadSum? && op.subgroup == g && RowOfLane(op.row, lane)
  {
    hide Flat;
    var step := (elem: nat) => [LoadSum(g, Lanes.AccumulatorRow(lane, elem))];
    FlatHas(Lanes.ELEMENTS, step, op);
    if op.LoadSum? && RowOfLane(op.row, lane) {
      var elem: nat :| elem < Lanes.ELEMENTS && op.row == Lanes.AccumulatorRow(lane, elem);
      assert step(elem) == [LoadSum(g, op.row)];
    }
  }

  lemma RescalingHas(g: nat, lane: nat, op: Op)
    requires g < 2 && lane < Lanes.WAVE
    ensures op in Rescaling(g, lane)
       <==> && InBounds(op)
            && ((op.LoadOldScale? && op.subgroup == g && RowOfLane(op.row, lane))
                || (op.LoadWeight? && op.subgroup == g && op.row == lane % 16 && KeyOfLane(op.key, lane))
                || (op.StoreV? && g == 0 && op.lane == lane))
  {
    hide ScaleLoads, WeightLoads, RowOfLane, KeyOfLane, Repeat;
    RepeatHas(FRAGMENTS, ScaleLoads(g, lane), op);
    ScaleLoadsHas(g, lane, op);
    WeightLoadsHas(g, lane, op);
    RowsBelow(lane);
    KeysBelow(lane);
  }

  lemma OpsInTileAreScheduled(thread: nat, phase: nat, op: Op)
    requires thread < Lanes.THREADS && phase < INTERVALS
    ensures op in OpsInTile(thread, phase) <==> InBounds(op) && PerformsInTile(thread, phase, op)
  {
    hide ScoreStores, Softmax, Rescaling, RowOfLane, Lanes.WeightKey;
    var g, lane := thread / Lanes.WAVE, thread % Lanes.WAVE;
    RowsBelow(lane);
    ScoreStoresHas(g, lane, op);
    SoftmaxHas(g, lane, op);
    RescalingHas(g, lane, op);
  }

  /** The thread's loops perform exactly the operations of the schedule. */
  lemma KernelOpsAreScheduled(tiles: nat, thread: nat, epoch: nat, op: Op)
    requires thread < Lanes.THREADS
    ensures op in KernelOps(tiles, thread, epoch) <==> Performs(tiles, thread, epoch, op)
  {
    hide OpsInTile, PerformsInTile, SumLoads, RowOfLane, Repeat;
    var g, lane := thread / Lanes.WAVE, thread % Lanes.WAVE;
    RowsBelow(lane);
    OpsInTileAreScheduled(thread, epoch % INTERVALS, op);
    RepeatHas(FRAGMENTS, SumLoads(g, lane), op);
    SumLoadsHas(g, lane, op);
  }

  // ---------------------------------------------------------------- the lists in closed form

  /** A softmax row: the maximum's loads, the scale, then load and weight key by key, the sum last. */
  function SoftmaxOpAt(g: nat, row: nat, j: nat): Op {
    if j < 16 then LoadScore(g, row, j, false)
    else if j == 16 then StoreOldScale(g, row)
    else if j == 49 then StoreSum(g, row)
    else if (j - 17) % 2 == 0 then LoadScore(g, row, (j - 17) / 2, true)
    else StoreWeight(g, row, (j - 17) / 2)
  }

  lemma SoftmaxRowAt(g: nat, row: nat, j: nat)
    requires j < 50
    ensures |SoftmaxRow(g, row)| == 50 && SoftmaxRow(g, row)[j] == SoftmaxOpAt(g, row, j)
  {
    hide Flat;
    var loads := (k: nat) => [LoadScore(g, row, k, false)];
    var weights := (k: nat) => [LoadScore(g, row, k, true), StoreWeight(g, row, k)];
    FlatLength(KEYS, loads, 1);
    FlatLength(KEYS, weights, 2);
    if j < 16 {
      FlatAt(KEYS, loads, 1, j, 0);
    } else if 16 < j < 49 {
      FlatAt(KEYS, weights, 2, (j - 17) / 2, (j - 17) % 2);
    }
  }

  lemma SoftmaxAt(g: nat, row: nat, j: nat)
    requires row < 16 && j < 50
    ensures |Softmax(g, 0)| == 800 && Softmax(g, 0)[row * 50 + j] == SoftmaxOpAt(g, row, j)
  {
    hide Flat, SoftmaxRow, SoftmaxOpAt;
    var step := (x: nat) => SoftmaxRow(g, x);
    forall x: nat ensures |step(x)| == 50 { SoftmaxRowAt(g, x, 0); }
    FlatLength(ROWS, step, 50);
    FlatAt(ROWS, step, 50, row, j);
    SoftmaxRowAt(g, row, j);
  }

  lemma ElementLoopAt(g: nat, lane: nat, elem: nat)
    requires elem < 8
    ensures |ScoreStores(g, lane)| == |ScaleLoads(g, lane)| == |WeightLoads(g, lane)| == |SumLoads(g, lane)| == 8
    ensures ScoreStores(g, lane)[elem] == StoreScore(g, Lanes.AccumulatorRow(lane, elem), lane % 16)
    ensures ScaleLoads(g, lane)[elem] == LoadOldScale(g, Lanes.AccumulatorRow(lane, elem))
    ensures WeightLoads(g, lane)[elem] == LoadWeight(g, lane % 16, Lanes.WeightKey(lane, elem))
    ensures SumLoads(g, lane)[elem] == LoadSum(g, Lanes.AccumulatorRow(lane, elem))
  {
    hide Flat, Lanes.AccumulatorRow, Lanes.WeightKey;
    var scores := (x: nat) => [StoreScore(g, Lanes.AccumulatorRow(lane, x), lane % 16)];
    var scales := (x: nat) => [LoadOldScale(g, Lanes.AccumulatorRow(lane, x))];
    var weights := (x: nat) => [LoadWeight(g, lane % 16, Lanes.WeightKey(lane, x))];
    var sums := (x: nat) => [LoadSum(g, Lanes.AccumulatorRow(lane, x))];
    FlatLength(Lanes.ELEMENTS, scores, 1);
    FlatLength(Lanes.ELEMENTS, scales, 1);
    FlatLength(Lanes.ELEMENTS, weights, 1);
    FlatLength(Lanes.ELEMENTS, sums, 1);
    FlatAt(Lanes.ELEMENTS, scores, 1, elem, 0);
    FlatAt(Lanes.ELEMENTS, scales, 1, elem, 0);
    FlatAt(Lanes.ELEMENTS, weights, 1, elem, 0);
    FlatAt(Lanes.ELEMENTS, sums, 1, elem, 0);
  }

  /** In the rescaling interval: the scales for every value fragment, the weights, and subgroup 0's first V. */
  lemma RescalingAt(g: nat, lane: nat, i: nat)
    requires i < 72
    ensures |Rescaling(g, lane)| == (if g == 0 then 73 else 72) && |Repeat(FRAGMENTS, SumLoads(g, lane))| == 64
    ensures Rescaling(g, lane)[i]
         == if i < 64 then LoadOldScale(g, Lanes.AccumulatorRow(lane, i % 8))
            else LoadWeight(g, lane % 16, Lanes.WeightKey(lane, i - 64))
    ensures g == 0 ==> Rescaling(g, lane)[72] == StoreV(lane)
    ensures i < 64 ==> Repeat(FRAGMENTS, SumLoads(g, lane))[i] == LoadSum(g, Lanes.AccumulatorRow(lane, i % 8))
  {
    hide Flat, Repeat, ScaleLoads, SumLoads, WeightLoads, Lanes.AccumulatorRow, Lanes.WeightKey;
    ElementLoopAt(g, lane, i % 8);
    RepeatLength(FRAGMENTS, ScaleLoads(g, lane));
    RepeatLength(FRAGMENTS, SumLoads(g, lane));
    if i < 64 {
      RepeatAt(FRAGMENTS, ScaleLoads(g, lane), i / 8, i % 8);
      RepeatAt(FRAGMENTS, SumLoads(g, lane), i / 8, i % 8);
    } else {
      ElementLoopAt(g, lane, i - 64);
    }
  }

  /** Access i of a thread in interval `phase` of a tile. */
  function OpAt(thread: nat, phase: nat, i: nat): Op {
    var g, lane := thread / 32, thread % 32;
    if phase < 16 then (if phase % 2 == 0 then StoreK(lane) else LoadK(lane))
    else if phase == 16 then StoreScore(g, Lanes.AccumulatorRow(lane, i), lane % 16)
    else if phase == 17 then SoftmaxOpAt(g, i / 50, i % 50)
    else if phase == 18 && i < 64 then LoadOldScale(g, Lanes.AccumulatorRow(lane, i % 8))
    else if phase == 18 && i < 72 then LoadWeight(g, lane % 16, Lanes.WeightKey(lane, i - 64))
    else if phase % 2 == 0 then StoreV(lane)
    else LoadV(lane)
  }

  /** How many accesses it makes there: subgroup 0 alone reloads fragments, thread 0 of a subgroup does its
      softmax. */
  function OpCount(thread: nat, phase: nat): nat {
    var g, lane := thread / 32, thread % 32;
    if phase == 16 then 8
    else if phase == 17 then (if lane == 0 then 800 else 0)
    else if phase == 18 then (if g == 0 then 73 else 72)
    else if phase % 2 == 0 then (if g == 0 then 1 else 0)
    else 1
  }

  /** The program order of a tile, and of the final division, in closed form. */
  lemma KernelOpsInOrder(tiles: nat, thread: nat, epoch: nat)
    ensures var ops := KernelOps(tiles, thread, epoch);
            if epoch < 34 * tiles then
              && |ops| == OpCount(thread, epoch % 34)
              && forall i: nat :: i < |ops| ==> ops[i] == OpAt(thread, epoch % 34, i)
            else if epoch == 34 * tiles then
              && |ops| == 64
              && forall i: nat :: i < |ops| ==> ops[i] == LoadSum(thread / 32, Lanes.AccumulatorRow(thread % 32, i % 8))
            else ops == []
  {
    hide Flat, Repeat, ScoreStores, Softmax, Rescaling, SoftmaxOpAt, SumLoads, Lanes.AccumulatorRow,
         Lanes.WeightKey;
    var g, lane, ops := thread / 32, thread % 32, KernelOps(tiles, thread, epoch);
    ElementLoopAt(g, lane, 0);
    SoftmaxAt(g, 0, 0);
    RescalingAt(g, lane, 0);
    if epoch < 34 * tiles {
      if lane != 0 { SoftmaxIdle(g, lane); }
      forall i: nat | i < |ops| ensures ops[i] == OpAt(thread, epoch % 34, i) {
        if epoch % 34 == 16 { ElementLoopAt(g, lane, i); }
        if epoch % 34 == 17 { SoftmaxAt(g, i / 50, i % 50); }
        if epoch % 34 == 18 && i < 72 { RescalingAt(g, lane, i); }
      }
    } else if epoch == 34 * tiles {
      forall i: nat | i < |ops| ensures ops[i] == LoadSum(g, Lanes.AccumulatorRow(lane, i % 8)) {
        RescalingAt(g, lane, i);
      }
    }
  }

  lemma SoftmaxIdle(g: nat, lane: nat)
    requires lane != 0
    ensures Softmax(g, lane) == []
  {
  }

  // ---------------------------------------------------------------- the program and its barriers

  function Accesses(ops: seq<Op>): seq<Access> { seq(|ops|, i requires 0 <= i < |ops| => AccessOf(ops[i])) }

  /** The kernel over `tiles` key tiles. */
  function Kernel(tiles: nat): Listing {
    (thread: nat, epoch: nat) => Accesses(KernelOps(tiles, thread, epoch))
  }

  lemma KernelFollowsSchedule(tiles: nat)
    ensures Lists(Lanes.Groups(), Kernel(tiles), Schedule(tiles))
  {
    hide KernelOps, Performs, AccessOf;
    forall l: nat, e: nat, a: Access | l < Lanes.THREADS
      ensures a in Kernel(tiles)(l, e) <==> Schedule(tiles)(l, e, a)
    {
      var ops := KernelOps(tiles, l, e);
      if a in Accesses(ops) {
        var i :| 0 <= i < |ops| && AccessOf(ops[i]) == a;
        KernelOpsAreScheduled(tiles, l, e, ops[i]);
      }
      if Scheduled(tiles, l, e, a) {
        var op :| Performs(tiles, l, e, op) && AccessOf(op) == a;
        KernelOpsAreScheduled(tiles, l, e, op);
        var i :| 0 <= i < |ops| && ops[i] == op;
        assert Accesses(ops)[i] == a;
      }
    }
  }

  const SHARED_BYTES: nat := 4352

  /** In program order too, and with any tokens, the kernel is never reported. */
  lemma KernelIsNeverReported(tiles: nat, cfg: D.Config, s: D.State)
    requires cfg.group == Lanes.Groups() && D.Init(cfg, s)
    ensures NeverReported(cfg, Kernel(tiles), s)
  {
    hide D.Init, NeverReported, Lists, S.RaceFree, S.Dense;
    ScheduleIsRaceFree(tiles);
    ScheduleIsDense(tiles);
    KernelFollowsSchedule(tiles);
    ListedIsNeverReported(cfg, Kernel(tiles), Schedule(tiles), s);
  }

  lemma AccessFits(op: Op)
    requires InBounds(op)
    ensures var a := AccessOf(op); 0 < a.bytes && a.offset + a.bytes <= SHARED_BYTES
  {
  }

  lemma KernelFits(tiles: nat, cfg: D.Config)
    requires SHARED_BYTES <= GRANULE * |cfg.initial| && |cfg.group| == Lanes.THREADS
    ensures Fits(cfg, Kernel(tiles))
  {
    hide AccessOf, KernelOps, Performs;
    forall l: nat, e: nat, i: nat | l < |cfg.group| && i < |Kernel(tiles)(l, e)|
      ensures 0 < Kernel(tiles)(l, e)[i].bytes && LastCell(Kernel(tiles)(l, e)[i]) < |cfg.initial|
    {
      var op := KernelOps(tiles, l, e)[i];
      KernelOpsAreScheduled(tiles, l, e, op);
      BoundsOf(tiles, l, e, op);
      AccessFits(op);
    }
  }

  /** With one buffer a barrier is needed on each side of every use of a fragment, and nowhere else: with a
      single barrier left out, every thread still in program order, the kernel is never reported exactly if
      it is not one of these. */
  lemma BarriersAroundFragmentsAreNeeded(tiles: nat, e: nat, cfg: D.Config, s: D.State)
    requires e < INTERVALS * tiles && cfg.group == Lanes.Groups() && cfg.subgroups <= OWNERS
    requires SHARED_BYTES <= GRANULE * |cfg.initial| && D.Init(cfg, s) && NoTokens(s)
    ensures NeverReported(cfg, Joined(Kernel(tiles), e), s) <==> !AroundFragment(e % INTERVALS)
  {
    hide D.Init, NeverReported, Lists, Fits, S.RaceFree, S.Roomy, S.RaceFreeAcross;
    ScheduleIsRaceFree(tiles);
    ScheduleIsRoomy(tiles);
    KernelFollowsSchedule(tiles);
    KernelFits(tiles, cfg);
    BarrierIsSpare(cfg, Kernel(tiles), Schedule(tiles), s, e);
    if AroundFragment(e % INTERVALS) {
      FragmentIsShared(tiles, e);
    } else {
      AcrossIsRaceFree(tiles, e);
    }
  }
}
