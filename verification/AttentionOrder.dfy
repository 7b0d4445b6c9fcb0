/** The double-buffered attention kernel in program order: every thread's instrumented accesses between two
    barriers, loop by loop, and which barriers the detector needs. */
module AttentionOrder {
  import opened Arith
  import opened ShadowHistory
  import opened ShadowWords
  import opened AttentionSchedule
  import opened BarrierRemoval
  import opened Loops
  import opened ProgramOrder
  import opened ProgramRuns
  import S = CleanPrograms
  import D = DetectorMachine

  /** The fragment element, of K or of V, that a staging loop reaches with `linear`. */
  function Staged(values: bool, st: nat, buffer: nat, linear: nat): Op
    requires Candidate(st)
  {
    if values then StageV(buffer, linear / WAVE / st, linear / WAVE % st, linear % WAVE)
    else StageK(buffer, linear / WAVE / st, linear / WAVE % st, linear % WAVE)
  }

  /** linear = thread, thread + 64, ... below 256 for each subtile */
  function StagingLoop(values: bool, st: nat, buffer: nat, thread: nat): seq<Op>
    requires Candidate(st)
  {
    Flat(4 * st, (n: nat) => [Staged(values, st, buffer, thread + n * THREADS)])
  }

  function Staging(st: nat, buffer: nat, thread: nat): seq<Op>
    requires Candidate(st)
  {
    StagingLoop(false, st, buffer, thread) + StagingLoop(true, st, buffer, thread)
  }

  function KeyLoads(buffer: nat, s: nat, lane: nat): seq<Op> { Flat(FRAGMENTS, f => [LoadK(buffer, f, s, lane)]) }

  function ScoreStores(g: nat, s: nat, lane: nat): seq<Op> {
    Flat(ELEMENTS, elem => [StoreScore(g, AccumulatorRow(lane, elem), s * FRAGMENT_DIM + lane % 16)])
  }

  function Multiplying(st: nat, buffer: nat, g: nat, lane: nat): seq<Op> {
    Flat(st, s => KeyLoads(buffer, s, lane) + ScoreStores(g, s, lane))
  }

  function MaxLoads(st: nat, g: nat, row: nat): seq<Op> { Flat(KeyTile(st), k => [LoadScore(g, row, k, false)]) }

  function WeightStores(st: nat, g: nat, row: nat): seq<Op> {
    Flat(KeyTile(st), k => [LoadScore(g, row, k, true), StoreWeight(g, row, k)])
  }

  function SoftmaxRow(st: nat, g: nat, row: nat): seq<Op> {
    MaxLoads(st, g, row) + [StoreOldScale(g, row)] + WeightStores(st, g, row) + [StoreSum(g, row)]
  }

  function Softmax(st: nat, g: nat, lane: nat): seq<Op> {
    if lane == 0 then Flat(QUERY_TILE, row => SoftmaxRow(st, g, row)) else []
  }

  function ScaleLoads(g: nat, lane: nat): seq<Op> {
    Flat(ELEMENTS, elem => [LoadOldScale(g, AccumulatorRow(lane, elem))])
  }

  function WeightLoads(g: nat, s: nat, lane: nat): seq<Op> {
    Flat(ELEMENTS, elem => [LoadWeight(g, lane % 16, s * FRAGMENT_DIM + WeightKey(lane, elem))])
  }

  function ValueLoads(buffer: nat, s: nat, lane: nat): seq<Op> { Flat(FRAGMENTS, f => [LoadV(buffer, f, s, lane)]) }

  function Accumulating(st: nat, buffer: nat, g: nat, lane: nat): seq<Op> {
    Repeat(FRAGMENTS, ScaleLoads(g, lane)) + Flat(st, s => WeightLoads(g, s, lane) + ValueLoads(buffer, s, lane))
  }

  function SumLoads(g: nat, lane: nat): seq<Op> { Flat(ELEMENTS, elem => [LoadSum(g, AccumulatorRow(lane, elem))]) }

  function Dividing(g: nat, lane: nat): seq<Op> { Repeat(FRAGMENTS, SumLoads(g, lane)) }

  /** Thread `thread` in barrier interval `epoch`. */
  function KernelOps(st: nat, tiles: nat, thread: nat, epoch: nat): seq<Op>
    requires Candidate(st)
  {
    var tile, g, lane := epoch / 4, thread / WAVE, thread % WAVE;
    var buffer := tile % 2;
    if tile < tiles then
      if epoch % 4 == 0 then Staging(st, buffer, thread)
      else if epoch % 4 == 1 then Multiplying(st, buffer, g, lane)
      else if epoch % 4 == 2 then Softmax(st, g, lane)
      else Accumulating(st, buffer, g, lane)
    else if epoch == 4 * tiles then Dividing(g, lane)
    else []
  }

  // ---------------------------------------------------------------- the lists are the schedule

  lemma StagingLinear(st: nat, linear: nat, f: nat, s: nat, lane: nat)
    requires Candidate(st) && s < st && lane < WAVE
    ensures linear / WAVE / st == f && linear / WAVE % st == s && linear % WAVE == lane
       <==> linear == (f * st + s) * WAVE + lane
  {
    if st == 1 { } else { }
  }

  /** Iteration n of a thread's staging loop is at an element. */
  ghost predicate AtElement(st: nat, thread: nat, n: nat, f: nat, s: nat, lane: nat) {
    thread + n * THREADS == (f * st + s) * WAVE + lane
  }

  lemma FragmentsBelow(st: nat, f: nat, s: nat, lane: nat)
    requires Candidate(st) && s < st && lane < WAVE
    ensures (f * st + s) * WAVE + lane < 256 * st <==> f < FRAGMENTS
  {
    if st == 1 { } else { }
  }

  lemma ReachedOnly(st: nat, thread: nat, n: nat, f: nat, s: nat, lane: nat)
    requires Candidate(st) && thread < THREADS && s < st && lane < WAVE
    requires n < 4 * st && AtElement(st, thread, n, f, s, lane)
    ensures f < FRAGMENTS && StagedBy(st, thread, f, s, lane)
  {
    FragmentsBelow(st, f, s, lane);
  }

  lemma ReachedBy(st: nat, thread: nat, f: nat, s: nat, lane: nat) returns (n: nat)
    requires Candidate(st) && thread < THREADS && s < st && lane < WAVE
    requires f < FRAGMENTS && StagedBy(st, thread, f, s, lane)
    ensures n < 4 * st && AtElement(st, thread, n, f, s, lane)
  {
    FragmentsBelow(st, f, s, lane);
    n := ((f * st + s) * WAVE + lane) / THREADS;
  }

  predicate StageOf(values: bool, op: Op) { if values then op.StageV? else op.StageK? }

  lemma IsElement(values: bool, st: nat, buffer: nat, thread: nat, n: nat, op: Op)
    requires Candidate(st)
    ensures Staged(values, st, buffer, thread + n * THREADS) == op
       <==> && StageOf(values, op) && op.buffer == buffer && op.subtile < st && op.lane < WAVE
            && AtElement(st, thread, n, op.fragment, op.subtile, op.lane)
  {
    if StageOf(values, op) {
      if op.subtile < st && op.lane < WAVE {
        StagingLinear(st, thread + n * THREADS, op.fragment, op.subtile, op.lane);
      } else {
        assert (thread + n * THREADS) / WAVE % st < st && (thread + n * THREADS) % WAVE < WAVE;
      }
    }
  }

  lemma StagingLoopHas(values: bool, st: nat, buffer: nat, thread: nat, op: Op)
    requires Candidate(st) && thread < THREADS
    ensures op in StagingLoop(values, st, buffer, thread)
       <==> && StageOf(values, op) && op.buffer == buffer && op.fragment < FRAGMENTS && op.subtile < st
            && op.lane < WAVE && StagedBy(st, thread, op.fragment, op.subtile, op.lane)
  {
    hide Staged, StagedBy, AtElement, Flat;
    var step := (n: nat) => [Staged(values, st, buffer, thread + n * THREADS)];
    FlatHas(4 * st, step, op);
    if op in StagingLoop(values, st, buffer, thread) {
      var n: nat :| n < 4 * st && op in step(n);
      IsElement(values, st, buffer, thread, n, op);
      ReachedOnly(st, thread, n, op.fragment, op.subtile, op.lane);
    }
    if StageOf(values, op) && op.buffer == buffer && op.fragment < FRAGMENTS && op.subtile < st && op.lane < WAVE
       && StagedBy(st, thread, op.fragment, op.subtile, op.lane) {
      var n := ReachedBy(st, thread, op.fragment, op.subtile, op.lane);
      IsElement(values, st, buffer, thread, n, op);
      assert step(n) == [op];
    }
  }

  lemma StagingHas(st: nat, buffer: nat, thread: nat, op: Op)
    requires Candidate(st) && thread < THREADS && buffer < 2
    ensures op in Staging(st, buffer, thread)
       <==> && InBounds(st, op) && (op.StageK? || op.StageV?) && op.buffer == buffer
            && StagedBy(st, thread, op.fragment, op.subtile, op.lane)
  {
    hide StagedBy, StagingLoop;
    StagingLoopHas(false, st, buffer, thread, op);
    StagingLoopHas(true, st, buffer, thread, op);
  }

  ghost predicate RowOf(row: nat, lane: nat) {
    exists elem :: 0 <= elem < ELEMENTS && row == AccumulatorRow(lane, elem)
  }

  lemma KeyLoadsHas(buffer: nat, s: nat, lane: nat, op: Op)
    ensures op in KeyLoads(buffer, s, lane) <==> op == LoadK(buffer, if op.LoadK? then op.fragment else 0, s, lane)
                                                 && op.fragment < FRAGMENTS
  {
    hide Flat;
    var step := (f: nat) => [LoadK(buffer, f, s, lane)];
    FlatHas(FRAGMENTS, step, op);
    if op.LoadK? { assert step(op.fragment) == [LoadK(buffer, op.fragment, s, lane)]; }
  }

  lemma ScoreStoresHas(g: nat, s: nat, lane: nat, op: Op)
    ensures op in ScoreStores(g, s, lane)
       <==> op.StoreScore? && op.subgroup == g && op.key == s * FRAGMENT_DIM + lane % 16 && RowOf(op.row, lane)
  {
    hide Flat;
    var step := (elem: nat) => [StoreScore(g, AccumulatorRow(lane, elem), s * FRAGMENT_DIM + lane % 16)];
    FlatHas(ELEMENTS, step, op);
    if op.StoreScore? && RowOf(op.row, lane) {
      var elem: nat :| elem < ELEMENTS && op.row == AccumulatorRow(lane, elem);
      assert step(elem) == [StoreScore(g, op.row, s * FRAGMENT_DIM + lane % 16)];
    }
  }

  lemma MultiplyingHas(st: nat, buffer: nat, g: nat, lane: nat, op: Op)
    requires Candidate(st) && buffer < 2 && g < 2 && lane < WAVE
    ensures op in Multiplying(st, buffer, g, lane)
       <==> && InBounds(st, op)
            && ((op.LoadK? && op.buffer == buffer && op.lane == lane)
                || (op.StoreScore? && op.subgroup == g && op.key % FRAGMENT_DIM == lane % 16 && RowOf(op.row, lane)))
  {
    hide RowOf, KeyLoads, ScoreStores, Flat;
    var step := (s: nat) => KeyLoads(buffer, s, lane) + ScoreStores(g, s, lane);
    FlatHas(st, step, op);
    RowsBelow(lane);
    if op in Multiplying(st, buffer, g, lane) {
      var s: nat :| s < st && op in step(s);
      KeyLoadsHas(buffer, s, lane, op);
      ScoreStoresHas(g, s, lane, op);
    }
    if op.LoadK? && InBounds(st, op) {
      KeyLoadsHas(buffer, op.subtile, lane, op);
      assert op in KeyLoads(buffer, op.subtile, lane) ==> op in step(op.subtile);
    }
    if op.StoreScore? && InBounds(st, op) {
      var s := op.key / FRAGMENT_DIM;
      ScoreStoresHas(g, s, lane, op);
      assert op in ScoreStores(g, s, lane) ==> op in step(s);
    }
  }

  lemma RowsBelow(lane: nat)
    requires lane < WAVE
    ensures forall row: nat :: RowOf(row, lane) ==> row < QUERY_TILE
  {
  }

  lemma MaxLoadsHas(st: nat, g: nat, row: nat, op: Op)
    ensures op in MaxLoads(st, g, row)
       <==> op.LoadScore? && op.subgroup == g && op.row == row && op.key < KeyTile(st) && !op.forWeight
  {
    hide Flat;
    var step := (k: nat) => [LoadScore(g, row, k, false)];
    FlatHas(KeyTile(st), step, op);
    if op.LoadScore? { assert step(op.key) == [LoadScore(g, row, op.key, false)]; }
  }

  lemma WeightStoresHas(st: nat, g: nat, row: nat, op: Op)
    ensures op in WeightStores(st, g, row)
       <==> && ((op.LoadScore? && op.forWeight) || op.StoreWeight?)
            && op.subgroup == g && op.row == row && op.key < KeyTile(st)
  {
    hide Flat;
    var step := (k: nat) => [LoadScore(g, row, k, true), StoreWeight(g, row, k)];
    FlatHas(KeyTile(st), step, op);
    if op.LoadScore? || op.StoreWeight? {
      assert step(op.key) == [LoadScore(g, row, op.key, true), StoreWeight(g, row, op.key)];
    }
  }

  lemma SoftmaxRowHas(st: nat, g: nat, row: nat, op: Op)
    requires g < 2 && row < QUERY_TILE
    ensures op in SoftmaxRow(st, g, row)
       <==> && InBounds(st, op) && (op.LoadScore? || op.StoreWeight? || op.StoreOldScale? || op.StoreSum?)
            && op.subgroup == g && op.row == row
  {
    hide MaxLoads, WeightStores;
    MaxLoadsHas(st, g, row, op);
    WeightStoresHas(st, g, row, op);
  }

  lemma SoftmaxHas(st: nat, g: nat, lane: nat, op: Op)
    requires g < 2
    ensures op in Softmax(st, g, lane)
       <==> && InBounds(st, op) && lane == 0
            && (op.LoadScore? || op.StoreWeight? || op.StoreOldScale? || op.StoreSum?) && op.subgroup == g
  {
    hide SoftmaxRow, Flat;
    var step := (row: nat) => SoftmaxRow(st, g, row);
    FlatHas(QUERY_TILE, step, op);
    if op in Softmax(st, g, lane) {
      var row: nat :| row < QUERY_TILE && op in step(row);
      SoftmaxRowHas(st, g, row, op);
    }
    if (op.LoadScore? || op.StoreWeight? || op.StoreOldScale? || op.StoreSum?) && InBounds(st, op) {
      SoftmaxRowHas(st, g, op.row, op);
      assert op in SoftmaxRow(st, g, op.row) ==> op in step(op.row);
    }
  }

  lemma ScaleLoadsHas(g: nat, lane: nat, op: Op)
    ensures op in ScaleLoads(g, lane) <==> op.LoadOldScale? && op.subgroup == g && RowOf(op.row, lane)
  {
    hide Flat;
    var step := (elem: nat) => [LoadOldScale(g, AccumulatorRow(lane, elem))];
    FlatHas(ELEMENTS, step, op);
    if op.LoadOldScale? && RowOf(op.row, lane) {
      var elem: nat :| elem < ELEMENTS && op.row == AccumulatorRow(lane, elem);
      assert step(elem) == [LoadOldScale(g, op.row)];
    }
  }

  lemma SumLoadsHas(g: nat, lane: nat, op: Op)
    ensures op in SumLoads(g, lane) <==> op.LoadSum? && op.subgroup == g && RowOf(op.row, lane)
  {
    hide Flat;
    var step := (elem: nat) => [LoadSum(g, AccumulatorRow(lane, elem))];
    FlatHas(ELEMENTS, step, op);
    if op.LoadSum? && RowOf(op.row, lane) {
      var elem: nat :| elem < ELEMENTS && op.row == AccumulatorRow(lane, elem);
      assert step(elem) == [LoadSum(g, op.row)];
    }
  }

  ghost predicate KeyOf(key: nat, lane: nat) { exists elem :: 0 <= elem < ELEMENTS && key == WeightKey(lane, elem) }

  lemma KeysBelow(lane: nat)
    requires lane < WAVE
    ensures forall key: nat :: KeyOf(key, lane) ==> key < FRAGMENT_DIM
  {
  }

  lemma KeyParts(s: nat, k: nat, key: nat)
    requires k < FRAGMENT_DIM
    ensures key == s * FRAGMENT_DIM + k <==> key / FRAGMENT_DIM == s && key % FRAGMENT_DIM == k
  {
  }

  lemma WeightLoadsHas(g: nat, s: nat, lane: nat, op: Op)
    requires lane < WAVE
    ensures op in WeightLoads(g, s, lane)
       <==> && op.LoadWeight? && op.subgroup == g && op.row == lane % 16
            && op.key / FRAGMENT_DIM == s && KeyOf(op.key % FRAGMENT_DIM, lane)
  {
    hide WeightKey, Flat;
    var step := (elem: nat) => [LoadWeight(g, lane % 16, s * FRAGMENT_DIM + WeightKey(lane, elem))];
    FlatHas(ELEMENTS, step, op);
    KeysBelow(lane);
    if op in WeightLoads(g, s, lane) {
      var elem: nat :| elem < ELEMENTS && op in step(elem);
      assert KeyOf(WeightKey(lane, elem), lane);
      KeyParts(s, WeightKey(lane, elem), op.key);
    }
    if op.LoadWeight? && op.key / FRAGMENT_DIM == s && KeyOf(op.key % FRAGMENT_DIM, lane) {
      var elem: nat :| elem < ELEMENTS && op.key % FRAGMENT_DIM == WeightKey(lane, elem);
      KeyParts(s, WeightKey(lane, elem), op.key);
      assert step(elem) == [LoadWeight(g, lane % 16, op.key)];
    }
  }

  lemma ValueLoadsHas(buffer: nat, s: nat, lane: nat, op: Op)
    ensures op in ValueLoads(buffer, s, lane)
       <==> op.LoadV? && op.buffer == buffer && op.subtile == s && op.lane == lane && op.fragment < FRAGMENTS
  {
    hide Flat;
    var step := (f: nat) => [LoadV(buffer, f, s, lane)];
    FlatHas(FRAGMENTS, step, op);
    if op.LoadV? { assert step(op.fragment) == [LoadV(buffer, op.fragment, s, lane)]; }
  }

  lemma AccumulatingHas(st: nat, buffer: nat, g: nat, lane: nat, op: Op)
    requires Candidate(st) && buffer < 2 && g < 2 && lane < WAVE
    ensures op in Accumulating(st, buffer, g, lane)
       <==> && InBounds(st, op)
            && ((op.LoadOldScale? && op.subgroup == g && RowOf(op.row, lane))
                || (op.LoadWeight? && op.subgroup == g && op.row == lane % 16 && KeyOf(op.key % FRAGMENT_DIM, lane))
                || (op.LoadV? && op.buffer == buffer && op.lane == lane))
  {
    hide RowOf, KeyOf, ScaleLoads, WeightLoads, ValueLoads, Flat, Repeat;
    var step := (s: nat) => WeightLoads(g, s, lane) + ValueLoads(buffer, s, lane);
    FlatHas(st, step, op);
    RepeatHas(FRAGMENTS, ScaleLoads(g, lane), op);
    ScaleLoadsHas(g, lane, op);
    RowsBelow(lane);
    if op in Flat(st, step) {
      var s: nat :| s < st && op in step(s);
      WeightLoadsHas(g, s, lane, op);
      ValueLoadsHas(buffer, s, lane, op);
    }
    if op.LoadWeight? && InBounds(st, op) {
      var s := op.key / FRAGMENT_DIM;
      WeightLoadsHas(g, s, lane, op);
      assert op in WeightLoads(g, s, lane) ==> op in step(s);
    }
    if op.LoadV? && InBounds(st, op) {
      ValueLoadsHas(buffer, op.subtile, lane, op);
      assert op in ValueLoads(buffer, op.subtile, lane) ==> op in step(op.subtile);
    }
  }

  lemma DividingHas(st: nat, g: nat, lane: nat, op: Op)
    requires g < 2 && lane < WAVE
    ensures op in Dividing(g, lane) <==> InBounds(st, op) && op.LoadSum? && op.subgroup == g && RowOf(op.row, lane)
  {
    hide SumLoads, RowOf, Repeat;
    RepeatHas(FRAGMENTS, SumLoads(g, lane), op);
    SumLoadsHas(g, lane, op);
    RowsBelow(lane);
  }

  /** The thread's loops perform exactly the operations of the schedule. */
  lemma KernelOpsAreScheduled(st: nat, tiles: nat, thread: nat, epoch: nat, op: Op)
    requires Candidate(st) && thread < THREADS
    ensures op in KernelOps(st, tiles, thread, epoch) <==> Performs(st, tiles, thread, epoch, op)
  {
    hide Staging, Multiplying, Softmax, Accumulating, Dividing, InBounds, StagedBy, AccumulatorRow, WeightKey;
    var tile, g, lane := epoch / 4, thread / WAVE, thread % WAVE;
    var buffer := tile % 2;
    if tile < tiles {
      if epoch % 4 == 0 {
        StagingHas(st, buffer, thread, op);
      } else if epoch % 4 == 1 {
        MultiplyingHas(st, buffer, g, lane, op);
      } else if epoch % 4 == 2 {
        SoftmaxHas(st, g, lane, op);
      } else {
        AccumulatingHas(st, buffer, g, lane, op);
      }
    } else {
      DividingHas(st, g, lane, op);
    }
  }

  lemma LoadLengths(st: nat, buffer: nat, g: nat, s: nat, lane: nat, row: nat)
    ensures |KeyLoads(buffer, s, lane)| == 8 && |ValueLoads(buffer, s, lane)| == 8
    ensures |MaxLoads(st, g, row)| == 16 * st && |WeightStores(st, g, row)| == 32 * st
  {
    hide Flat;
    FlatLength(FRAGMENTS, (f: nat) => [LoadK(buffer, f, s, lane)], 1);
    FlatLength(FRAGMENTS, (f: nat) => [LoadV(buffer, f, s, lane)], 1);
    FlatLength(KeyTile(st), (k: nat) => [LoadScore(g, row, k, false)], 1);
    FlatLength(KeyTile(st), (k: nat) => [LoadScore(g, row, k, true), StoreWeight(g, row, k)], 2);
  }

  lemma ElementLengths(g: nat, s: nat, lane: nat)
    ensures |ScoreStores(g, s, lane)| == 8 && |ScaleLoads(g, lane)| == 8
    ensures |WeightLoads(g, s, lane)| == 8 && |SumLoads(g, lane)| == 8
  {
    hide Flat, AccumulatorRow, WeightKey;
    FlatLength(ELEMENTS, (elem: nat) => [StoreScore(g, AccumulatorRow(lane, elem), s * FRAGMENT_DIM + lane % 16)], 1);
    FlatLength(ELEMENTS, (elem: nat) => [LoadOldScale(g, AccumulatorRow(lane, elem))], 1);
    FlatLength(ELEMENTS, (elem: nat) => [LoadWeight(g, lane % 16, s * FRAGMENT_DIM + WeightKey(lane, elem))], 1);
    FlatLength(ELEMENTS, (elem: nat) => [LoadSum(g, AccumulatorRow(lane, elem))], 1);
  }

  lemma StagingLength(st: nat, buffer: nat, thread: nat)
    requires Candidate(st)
    ensures |Staging(st, buffer, thread)| == 8 * st
  {
    hide Flat, Staged;
    FlatLength(4 * st, (n: nat) => [Staged(false, st, buffer, thread + n * THREADS)], 1);
    FlatLength(4 * st, (n: nat) => [Staged(true, st, buffer, thread + n * THREADS)], 1);
  }

  lemma PhaseLengths(st: nat, buffer: nat, g: nat, lane: nat)
    requires Candidate(st)
    ensures |Multiplying(st, buffer, g, lane)| == 16 * st && |Accumulating(st, buffer, g, lane)| == 64 + 16 * st
    ensures |Softmax(st, g, lane)| == (if lane == 0 then 32 + 768 * st else 0) && |Dividing(g, lane)| == 64
  {
    hide Flat, Repeat, KeyLoads, ScoreStores, WeightLoads, ValueLoads, MaxLoads, WeightStores, ScaleLoads, SumLoads;
    var multiply := (s: nat) => KeyLoads(buffer, s, lane) + ScoreStores(g, s, lane);
    var accumulate := (s: nat) => WeightLoads(g, s, lane) + ValueLoads(buffer, s, lane);
    var softmax := (row: nat) => SoftmaxRow(st, g, row);
    forall s: nat ensures |multiply(s)| == 16 && |accumulate(s)| == 16 && |softmax(s)| == 2 + 48 * st {
      LoadLengths(st, buffer, g, s, lane, s);
      ElementLengths(g, s, lane);
    }
    FlatLength(st, multiply, 16);
    FlatLength(st, accumulate, 16);
    FlatLength(QUERY_TILE, softmax, 2 + 48 * st);
    ElementLengths(g, 0, lane);
    RepeatLength(FRAGMENTS, ScaleLoads(g, lane));
    RepeatLength(FRAGMENTS, SumLoads(g, lane));
  }

  /** How many instrumented accesses a thread makes between two barriers. */
  lemma KernelOpCount(st: nat, tiles: nat, thread: nat, epoch: nat)
    requires Candidate(st)
    ensures |KernelOps(st, tiles, thread, epoch)|
         == if epoch < 4 * tiles then
              if epoch % 4 == 0 then 8 * st
              else if epoch % 4 == 1 then 16 * st
              else if epoch % 4 == 2 then (if thread % 32 == 0 then 32 + 768 * st else 0)
              else 64 + 16 * st
            else if epoch == 4 * tiles then 64 else 0
  {
    hide Staging, Multiplying, Accumulating, Softmax, Dividing;
    var buffer, g, lane := epoch / 4 % 2, thread / WAVE, thread % WAVE;
    StagingLength(st, buffer, thread);
    PhaseLengths(st, buffer, g, lane);
  }

  // ---------------------------------------------------------------- the lists in closed form

  /** The element of a staging loop with this linear number. */
  function StagedAt(values: bool, st: nat, buffer: nat, linear: nat): Op
    requires Candidate(st)
  {
    var f, s, l := if st == 1 then linear / 32 else linear / 64, if st == 1 then 0 else linear / 32 % 2, linear % 32;
    if values then StageV(buffer, f, s, l) else StageK(buffer, f, s, l)
  }

  lemma StagedIsAt(values: bool, st: nat, buffer: nat, linear: nat)
    requires Candidate(st)
    ensures Staged(values, st, buffer, linear) == StagedAt(values, st, buffer, linear)
  {
    Nested(linear, 32, 2);
  }

  lemma StagingAt(st: nat, buffer: nat, thread: nat, i: nat)
    requires Candidate(st) && i < 8 * st
    ensures |Staging(st, buffer, thread)| == 8 * st
    ensures Staging(st, buffer, thread)[i]
         == StagedAt(4 * st <= i, st, buffer, thread + 64 * if 4 * st <= i then i - 4 * st else i)
  {
    hide Flat, StagedAt, Staged;
    var keys := (n: nat) => [Staged(false, st, buffer, thread + n * THREADS)];
    var values := (n: nat) => [Staged(true, st, buffer, thread + n * THREADS)];
    StagingLength(st, buffer, thread);
    FlatLength(4 * st, keys, 1);
    FlatLength(4 * st, values, 1);
    if i < 4 * st {
      FlatAt(4 * st, keys, 1, i, 0);
      StagedIsAt(false, st, buffer, thread + 64 * i);
    } else {
      FlatAt(4 * st, values, 1, i - 4 * st, 0);
      StagedIsAt(true, st, buffer, thread + 64 * (i - 4 * st));
    }
  }

  lemma MultiplyingAt(st: nat, buffer: nat, g: nat, lane: nat, s: nat, j: nat)
    requires Candidate(st) && s < st && j < 16
    ensures 16 * s + j < |Multiplying(st, buffer, g, lane)|
    ensures Multiplying(st, buffer, g, lane)[16 * s + j]
         == if j < 8 then LoadK(buffer, j, s, lane) else StoreScore(g, AccumulatorRow(lane, j - 8), 16 * s + lane % 16)
  {
    hide Flat, KeyLoads, ScoreStores, AccumulatorRow;
    var step := (x: nat) => KeyLoads(buffer, x, lane) + ScoreStores(g, x, lane);
    forall x: nat ensures |step(x)| == 16 {
      LoadLengths(st, buffer, g, x, lane, 0);
      ElementLengths(g, x, lane);
    }
    FlatAt(st, step, 16, s, j);
    LoadLengths(st, buffer, g, s, lane, 0);
    ElementLengths(g, s, lane);
    if j < 8 { KeyLoadAt(buffer, s, lane, j); } else { ScoreStoreAt(g, s, lane, j - 8); }
  }

  lemma KeyLoadAt(buffer: nat, s: nat, lane: nat, f: nat)
    requires f < 8
    ensures f < |KeyLoads(buffer, s, lane)| && KeyLoads(buffer, s, lane)[f] == LoadK(buffer, f, s, lane)
    ensures f < |ValueLoads(buffer, s, lane)| && ValueLoads(buffer, s, lane)[f] == LoadV(buffer, f, s, lane)
  {
    hide Flat;
    FlatAt(FRAGMENTS, (x: nat) => [LoadK(buffer, x, s, lane)], 1, f, 0);
    FlatAt(FRAGMENTS, (x: nat) => [LoadV(buffer, x, s, lane)], 1, f, 0);
  }

  lemma ScoreStoreAt(g: nat, s: nat, lane: nat, elem: nat)
    requires elem < 8
    ensures elem < |ScoreStores(g, s, lane)|
    ensures ScoreStores(g, s, lane)[elem] == StoreScore(g, AccumulatorRow(lane, elem), 16 * s + lane % 16)
  {
    hide Flat;
    FlatAt(ELEMENTS, (x: nat) => [StoreScore(g, AccumulatorRow(lane, x), s * FRAGMENT_DIM + lane % 16)], 1, elem, 0);
  }

  /** A softmax row: the maximum's loads, the scale, then load and weight key by key, the sum last. */
  function SoftmaxOpAt(st: nat, g: nat, row: nat, j: nat): Op {
    if j < 16 * st then LoadScore(g, row, j, false)
    else if j == 16 * st then StoreOldScale(g, row)
    else if j == 48 * st + 1 then StoreSum(g, row)
    else if (j - 16 * st - 1) % 2 == 0 then LoadScore(g, row, (j - 16 * st - 1) / 2, true)
    else StoreWeight(g, row, (j - 16 * st - 1) / 2)
  }

  lemma SoftmaxRowAt(st: nat, g: nat, row: nat, j: nat)
    requires Candidate(st) && j < 48 * st + 2
    ensures |SoftmaxRow(st, g, row)| == 48 * st + 2 && SoftmaxRow(st, g, row)[j] == SoftmaxOpAt(st, g, row, j)
  {
    hide Flat;
    var loads := (k: nat) => [LoadScore(g, row, k, false)];
    var weights := (k: nat) => [LoadScore(g, row, k, true), StoreWeight(g, row, k)];
    FlatLength(KeyTile(st), loads, 1);
    FlatLength(KeyTile(st), weights, 2);
    if j < 16 * st {
      FlatAt(KeyTile(st), loads, 1, j, 0);
    } else if 16 * st < j < 48 * st + 1 {
      var x := j - 16 * st - 1;
      FlatAt(KeyTile(st), weights, 2, x / 2, x % 2);
    }
  }

  /** Loads and stores of a softmax row. */
  function RowOps(st: nat): (n: nat)
    ensures 0 < n
  {
    if st == 1 then 50 else 98
  }

  lemma SoftmaxAt(st: nat, g: nat, row: nat, j: nat)
    requires Candidate(st) && row < 16 && j < RowOps(st)
    ensures row * RowOps(st) + j < |Softmax(st, g, 0)|
    ensures Softmax(st, g, 0)[row * RowOps(st) + j] == SoftmaxOpAt(st, g, row, j)
  {
    hide Flat, SoftmaxRow, SoftmaxOpAt;
    var step := (x: nat) => SoftmaxRow(st, g, x);
    forall x: nat ensures |step(x)| == RowOps(st) { SoftmaxRowAt(st, g, x, 0); }
    FlatAt(QUERY_TILE, step, RowOps(st), row, j);
    SoftmaxRowAt(st, g, row, j);
  }

  /** Rescaling loads the rows' scales for every value fragment; then come the weights and values, subtile by
      subtile. */
  lemma RescalingAt(st: nat, buffer: nat, g: nat, lane: nat, i: nat)
    requires Candidate(st) && i < 64
    ensures i < |Accumulating(st, buffer, g, lane)| && i < |Dividing(g, lane)|
    ensures Accumulating(st, buffer, g, lane)[i] == LoadOldScale(g, AccumulatorRow(lane, i % 8))
    ensures Dividing(g, lane)[i] == LoadSum(g, AccumulatorRow(lane, i % 8))
  {
    hide Flat, Repeat, ScaleLoads, SumLoads, AccumulatorRow;
    ElementLengths(g, 0, lane);
    RepeatAt(FRAGMENTS, ScaleLoads(g, lane), i / 8, i % 8);
    RepeatAt(FRAGMENTS, SumLoads(g, lane), i / 8, i % 8);
    RowLoadAt(g, lane, i % 8);
  }

  lemma RowLoadAt(g: nat, lane: nat, elem: nat)
    requires elem < 8
    ensures elem < |ScaleLoads(g, lane)| && ScaleLoads(g, lane)[elem] == LoadOldScale(g, AccumulatorRow(lane, elem))
    ensures elem < |SumLoads(g, lane)| && SumLoads(g, lane)[elem] == LoadSum(g, AccumulatorRow(lane, elem))
  {
    hide Flat;
    FlatAt(ELEMENTS, (x: nat) => [LoadOldScale(g, AccumulatorRow(lane, x))], 1, elem, 0);
    FlatAt(ELEMENTS, (x: nat) => [LoadSum(g, AccumulatorRow(lane, x))], 1, elem, 0);
  }

  lemma AccumulatingAt(st: nat, buffer: nat, g: nat, lane: nat, s: nat, j: nat)
    requires Candidate(st) && s < st && j < 16
    ensures 64 + 16 * s + j < |Accumulating(st, buffer, g, lane)|
    ensures Accumulating(st, buffer, g, lane)[64 + 16 * s + j]
         == if j < 8 then LoadWeight(g, lane % 16, 16 * s + WeightKey(lane, j))
            else LoadV(buffer, j - 8, s, lane)
  {
    hide Flat, Repeat, WeightLoads, ValueLoads, ScaleLoads, WeightKey;
    var step := (x: nat) => WeightLoads(g, x, lane) + ValueLoads(buffer, x, lane);
    forall x: nat ensures |step(x)| == 16 {
      LoadLengths(st, buffer, g, x, lane, 0);
      ElementLengths(g, x, lane);
    }
    FlatAt(st, step, 16, s, j);
    LoadLengths(st, buffer, g, s, lane, 0);
    ElementLengths(g, s, lane);
    RepeatLength(FRAGMENTS, ScaleLoads(g, lane));
    if j < 8 { WeightLoadAt(g, s, lane, j); } else { KeyLoadAt(buffer, s, lane, j - 8); }
  }

  lemma WeightLoadAt(g: nat, s: nat, lane: nat, elem: nat)
    requires elem < 8
    ensures elem < |WeightLoads(g, s, lane)|
    ensures WeightLoads(g, s, lane)[elem]
         == LoadWeight(g, lane % 16, 16 * s + WeightKey(lane, elem))
  {
    hide Flat;
    FlatAt(ELEMENTS, (x: nat) => [LoadWeight(g, lane % 16, s * FRAGMENT_DIM + WeightKey(lane, x))], 1, elem, 0);
  }

  /** Access i of a thread in a barrier interval. */
  function OpAt(st: nat, thread: nat, epoch: nat, tiles: nat, i: nat): Op
    requires Candidate(st)
  {
    var buffer, g, lane := epoch / 4 % 2, thread / 32, thread % 32;
    if 4 * tiles <= epoch then LoadSum(g, AccumulatorRow(lane, i % 8))
    else if epoch % 4 == 0 then
      StagedAt(4 * st <= i, st, buffer, thread + 64 * if 4 * st <= i then i - 4 * st else i)
    else if epoch % 4 == 1 then
      if i % 16 < 8 then LoadK(buffer, i % 16, i / 16, lane)
      else StoreScore(g, AccumulatorRow(lane, i % 16 - 8), i / 16 * 16 + lane % 16)
    else if epoch % 4 == 2 then
      if st == 1 then SoftmaxOpAt(st, g, i / 50, i % 50) else SoftmaxOpAt(st, g, i / 98, i % 98)
    else if i < 64 then LoadOldScale(g, AccumulatorRow(lane, i % 8))
    else if i % 16 < 8 then
      LoadWeight(g, lane % 16, (i - 64) / 16 * 16 + WeightKey(lane, i % 16))
    else LoadV(buffer, i % 16 - 8, (i - 64) / 16, lane)
  }

  /** The program order in closed form: which access comes when. */
  lemma KernelOpsInOrder(st: nat, tiles: nat, thread: nat, epoch: nat, i: nat)
    requires Candidate(st) && i < |KernelOps(st, tiles, thread, epoch)|
    ensures KernelOps(st, tiles, thread, epoch)[i] == OpAt(st, thread, epoch, tiles, i)
  {
    hide Staging, Multiplying, Accumulating, Softmax, Dividing, SoftmaxOpAt, StagedAt, AccumulatorRow, WeightKey;
    KernelOpCount(st, tiles, thread, epoch);
    var buffer, g, lane := epoch / 4 % 2, thread / WAVE, thread % WAVE;
    if 4 * tiles <= epoch {
      RescalingAt(st, buffer, g, lane, i);
    } else if epoch % 4 == 0 {
      StagingAt(st, buffer, thread, i);
    } else if epoch % 4 == 1 {
      MultiplyingAt(st, buffer, g, lane, i / 16, i % 16);
    } else if epoch % 4 == 2 {
      if st == 1 { SoftmaxAt(1, g, i / 50, i % 50); } else { SoftmaxAt(2, g, i / 98, i % 98); }
    } else if i < 64 {
      RescalingAt(st, buffer, g, lane, i);
    } else {
      var x := i - 64;
      assert x % 16 == i % 16;
      AccumulatingAt(st, buffer, g, lane, x / 16, x % 16);
    }
  }

  // ---------------------------------------------------------------- the program and its barriers

  function Accesses(st: nat, ops: seq<Op>): seq<Access> {
    seq(|ops|, i requires 0 <= i < |ops| => AccessOf(st, ops[i]))
  }

  /** The kernel over `tiles` key tiles. */
  function Kernel(st: nat, tiles: nat): Listing
    requires Candidate(st)
  {
    (thread: nat, epoch: nat) => Accesses(st, KernelOps(st, tiles, thread, epoch))
  }

  lemma KernelFollowsSchedule(st: nat, tiles: nat)
    requires Candidate(st)
    ensures Lists(Groups(), Kernel(st, tiles), Schedule(st, tiles))
  {
    hide KernelOps, Performs, AccessOf;
    forall l: nat, e: nat, a: Access | l < THREADS
      ensures a in Kernel(st, tiles)(l, e) <==> Schedule(st, tiles)(l, e, a)
    {
      var ops := KernelOps(st, tiles, l, e);
      if a in Accesses(st, ops) {
        var i :| 0 <= i < |ops| && AccessOf(st, ops[i]) == a;
        KernelOpsAreScheduled(st, tiles, l, e, ops[i]);
      }
      if Scheduled(st, tiles, l, e, a) {
        var op :| Performs(st, tiles, l, e, op) && AccessOf(st, op) == a;
        KernelOpsAreScheduled(st, tiles, l, e, op);
        var i :| 0 <= i < |ops| && ops[i] == op;
        assert Accesses(st, ops)[i] == a;
      }
    }
  }

  /** In program order too, and with any tokens, the kernel is never reported. */
  lemma KernelIsNeverReported(st: nat, tiles: nat, cfg: D.Config, s: D.State)
    requires Candidate(st) && cfg.group == Groups() && D.Init(cfg, s)
    ensures NeverReported(cfg, Kernel(st, tiles), s)
  {
    hide D.Init, NeverReported, Lists, S.RaceFree, S.Dense;
    ScheduleIsRaceFree(st, tiles);
    ScheduleIsDense(st, tiles);
    KernelFollowsSchedule(st, tiles);
    ListedIsNeverReported(cfg, Kernel(st, tiles), Schedule(st, tiles), s);
  }

  lemma AccessFits(st: nat, op: Op)
    requires Candidate(st) && InBounds(st, op)
    ensures var a := AccessOf(st, op); 0 < a.bytes && a.offset + a.bytes <= SharedBytes(st)
  {
    if op.StageK? || op.LoadK? || op.StageV? || op.LoadV? {
      FragmentIndexBound(st, op.buffer, op.fragment, op.subtile, op.lane);
    } else if op.StoreScore? || op.LoadScore? || op.StoreWeight? || op.LoadWeight? {
      RowKeyBound(st, op.subgroup, op.row, op.key);
      if st == 1 { } else { }
    }
  }

  lemma KernelFits(st: nat, tiles: nat, cfg: D.Config)
    requires Candidate(st) && SharedBytes(st) <= GRANULE * |cfg.initial| && |cfg.group| == THREADS
    ensures Fits(cfg, Kernel(st, tiles))
  {
    hide AccessOf, KernelOps, SharedBytes, Performs;
    forall l: nat, e: nat, i: nat | l < |cfg.group| && i < |Kernel(st, tiles)(l, e)|
      ensures 0 < Kernel(st, tiles)(l, e)[i].bytes && LastCell(Kernel(st, tiles)(l, e)[i]) < |cfg.initial|
    {
      var op := KernelOps(st, tiles, l, e)[i];
      KernelOpsAreScheduled(st, tiles, l, e, op);
      PerformedInBounds(st, tiles, l, e, op);
      AccessFits(st, op);
    }
  }

  /** Of the four barriers a tile, the detector needs exactly the one after staging. With any other single
      barrier left out, every thread still in program order, the kernel is never reported, thanks to the two
      buffers; with one of these left out, some run of it is. */
  lemma OnlyStagingBarrierIsNeeded(st: nat, tiles: nat, e: nat, cfg: D.Config, s: D.State)
    requires Candidate(st) && e < 4 * tiles && cfg.group == Groups() && cfg.subgroups <= OWNERS
    requires SharedBytes(st) <= GRANULE * |cfg.initial| && D.Init(cfg, s) && NoTokens(s)
    ensures NeverReported(cfg, Joined(Kernel(st, tiles), e), s) <==> e % 4 != 0
  {
    hide D.Init, NeverReported, Lists, Fits, S.RaceFree, S.Roomy, S.RaceFreeAcross;
    ScheduleIsRaceFree(st, tiles);
    ScheduleIsRoomy(st, tiles);
    KernelFollowsSchedule(st, tiles);
    KernelFits(st, tiles, cfg);
    BarrierIsSpare(cfg, Kernel(st, tiles), Schedule(st, tiles), s, e);
    if e % 4 == 0 {
      StagedElementIsShared(st, tiles, e);
    } else {
      AcrossIsRaceFree(st, tiles, e);
    }
  }
}
