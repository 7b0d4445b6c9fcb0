/** The LDS schedule of the double-buffered attention kernel: which bytes each thread touches between
    two barriers, for either candidate (one or two key subtiles per tile) and any number of key tiles. */
module AttentionSchedule {
  import opened ShadowHistory
  import opened ShadowWords
  import opened CleanPrograms
  import DetectorMachine

  const WAVE: nat := 32
  const THREADS: nat := 64
  const QUERY_TILE: nat := 16
  const FRAGMENTS: nat := 8
  const FRAGMENT_DIM: nat := 16
  const ELEMENTS: nat := 8
  const FRAGMENT_BYTES: nat := 16

  predicate Candidate(subtiles: nat) { subtiles == 1 || subtiles == 2 }

  function KeyTile(subtiles: nat): nat { subtiles * FRAGMENT_DIM }

  // ---------------------------------------------------------------- byte offsets

  function FragmentIndex(subtiles: nat, buffer: nat, fragment: nat, subtile: nat, lane: nat): nat {
    ((buffer * FRAGMENTS + fragment) * subtiles + subtile) * WAVE + lane
  }

  function KBytes(subtiles: nat): nat { 2 * FRAGMENTS * subtiles * WAVE * FRAGMENT_BYTES }

  function VBase(subtiles: nat): nat { KBytes(subtiles) }

  function ScoreBase(subtiles: nat): nat { VBase(subtiles) + KBytes(subtiles) }

  function WeightBase(subtiles: nat): nat { ScoreBase(subtiles) + 2 * QUERY_TILE * KeyTile(subtiles) * 4 }

  function OldScaleBase(subtiles: nat): nat { WeightBase(subtiles) + 2 * QUERY_TILE * KeyTile(subtiles) * 2 }

  function SumBase(subtiles: nat): nat { OldScaleBase(subtiles) + 2 * QUERY_TILE * 4 }

  function SharedBytes(subtiles: nat): nat { SumBase(subtiles) + 2 * QUERY_TILE * 4 }

  function RowKey(subtiles: nat, subgroup: nat, row: nat, key: nat): nat {
    (subgroup * QUERY_TILE + row) * KeyTile(subtiles) + key
  }

  /** One instrumented access of the kernel. */
  datatype Op =
    | StageK(buffer: nat, fragment: nat, subtile: nat, lane: nat)
    | StageV(buffer: nat, fragment: nat, subtile: nat, lane: nat)
    | LoadK(buffer: nat, fragment: nat, subtile: nat, lane: nat)
    | LoadV(buffer: nat, fragment: nat, subtile: nat, lane: nat)
    | StoreScore(subgroup: nat, row: nat, key: nat)
    | LoadScore(subgroup: nat, row: nat, key: nat, forWeight: bool)
    | StoreWeight(subgroup: nat, row: nat, key: nat)
    | LoadWeight(subgroup: nat, row: nat, key: nat)
    | StoreOldScale(subgroup: nat, row: nat)
    | LoadOldScale(subgroup: nat, row: nat)
    | StoreSum(subgroup: nat, row: nat)
    | LoadSum(subgroup: nat, row: nat)

  function AccessOf(st: nat, op: Op): Access {
    match op
    case StageK(b, f, s, l) => Access(FragmentIndex(st, b, f, s, l) * FRAGMENT_BYTES, FRAGMENT_BYTES, true, 0xd01)
    case StageV(b, f, s, l) => Access(VBase(st) + FragmentIndex(st, b, f, s, l) * FRAGMENT_BYTES, FRAGMENT_BYTES,
                                      true, 0xd02)
    case LoadK(b, f, s, l) => Access(FragmentIndex(st, b, f, s, l) * FRAGMENT_BYTES, FRAGMENT_BYTES, false, 0xd03)
    case LoadV(b, f, s, l) => Access(VBase(st) + FragmentIndex(st, b, f, s, l) * FRAGMENT_BYTES, FRAGMENT_BYTES,
                                     false, 0xd04)
    case StoreScore(g, r, k) => Access(ScoreBase(st) + RowKey(st, g, r, k) * 4, 4, true, 0xd05)
    case LoadScore(g, r, k, w) => Access(ScoreBase(st) + RowKey(st, g, r, k) * 4, 4, false, if w then 0xd07 else 0xd06)
    case StoreWeight(g, r, k) => Access(WeightBase(st) + RowKey(st, g, r, k) * 2, 2, true, 0xd08)
    case LoadWeight(g, r, k) => Access(WeightBase(st) + RowKey(st, g, r, k) * 2, 2, false, 0xd09)
    case StoreOldScale(g, r) => Access(OldScaleBase(st) + (g * QUERY_TILE + r) * 4, 4, true, 0xd0a)
    case LoadOldScale(g, r) => Access(OldScaleBase(st) + (g * QUERY_TILE + r) * 4, 4, false, 0xd0b)
    case StoreSum(g, r) => Access(SumBase(st) + (g * QUERY_TILE + r) * 4, 4, true, 0xd0c)
    case LoadSum(g, r) => Access(SumBase(st) + (g * QUERY_TILE + r) * 4, 4, false, 0xd0d)
  }

  predicate InBounds(st: nat, op: Op) {
    match op
    case StageK(b, f, s, l) => b < 2 && f < FRAGMENTS && s < st && l < WAVE
    case StageV(b, f, s, l) => b < 2 && f < FRAGMENTS && s < st && l < WAVE
    case LoadK(b, f, s, l) => b < 2 && f < FRAGMENTS && s < st && l < WAVE
    case LoadV(b, f, s, l) => b < 2 && f < FRAGMENTS && s < st && l < WAVE
    case StoreScore(g, r, k) => g < 2 && r < QUERY_TILE && k < KeyTile(st)
    case LoadScore(g, r, k, _) => g < 2 && r < QUERY_TILE && k < KeyTile(st)
    case StoreWeight(g, r, k) => g < 2 && r < QUERY_TILE && k < KeyTile(st)
    case LoadWeight(g, r, k) => g < 2 && r < QUERY_TILE && k < KeyTile(st)
    case StoreOldScale(g, r) => g < 2 && r < QUERY_TILE
    case LoadOldScale(g, r) => g < 2 && r < QUERY_TILE
    case StoreSum(g, r) => g < 2 && r < QUERY_TILE
    case LoadSum(g, r) => g < 2 && r < QUERY_TILE
  }

  // ---------------------------------------------------------------- the schedule

  /** The thread's stride loop reaches this element: linear = thread, thread + 64, ... */
  predicate StagedBy(st: nat, thread: nat, fragment: nat, subtile: nat, lane: nat) {
    ((fragment * st + subtile) * WAVE + lane) % THREADS == thread
  }

  /** The accumulator row of a lane's element, and the key of a lane's weight element. */
  function AccumulatorRow(lane: nat, elem: nat): nat { elem + 8 * (lane / 16) }

  function WeightKey(lane: nat, elem: nat): nat {
    elem % 2 + 2 * (elem / 2 % 2) + 4 * (lane / 16) + 8 * (elem / 4)
  }

  /** Thread `thread` performs `op` in barrier interval `epoch` of a run over `tiles` key tiles: stage,
      multiply, softmax, accumulate, four intervals a tile; then the final division. */
  ghost predicate Performs(st: nat, tiles: nat, thread: nat, epoch: nat, op: Op) {
    var tile, g, lane := epoch / 4, thread / WAVE, thread % WAVE;
    var buffer := tile % 2;
    && InBounds(st, op)
    && if tile < tiles then
         if epoch % 4 == 0 then
           && (op.StageK? || op.StageV?) && op.buffer == buffer
           && StagedBy(st, thread, op.fragment, op.subtile, op.lane)
         else if epoch % 4 == 1 then
           || (op.LoadK? && op.buffer == buffer && op.lane == lane)
           || (op.StoreScore? && op.subgroup == g && op.key % FRAGMENT_DIM == lane % 16
               && exists elem :: 0 <= elem < ELEMENTS && op.row == AccumulatorRow(lane, elem))
         else if epoch % 4 == 2 then
           && lane == 0
           && (op.LoadScore? || op.StoreWeight? || op.StoreOldScale? || op.StoreSum?) && op.subgroup == g
         else
           || (op.LoadOldScale? && op.subgroup == g
               && exists elem :: 0 <= elem < ELEMENTS && op.row == AccumulatorRow(lane, elem))
           || (op.LoadWeight? && op.subgroup == g && op.row == lane % 16
               && exists elem :: 0 <= elem < ELEMENTS && op.key % FRAGMENT_DIM == WeightKey(lane, elem))
           || (op.LoadV? && op.buffer == buffer && op.lane == lane)
       else
         && epoch == 4 * tiles && op.LoadSum? && op.subgroup == g
         && exists elem :: 0 <= elem < ELEMENTS && op.row == AccumulatorRow(lane, elem)
  }

  ghost predicate Scheduled(st: nat, tiles: nat, thread: nat, epoch: nat, a: Access) {
    exists op :: Performs(st, tiles, thread, epoch, op) && AccessOf(st, op) == a
  }

  ghost function Schedule(st: nat, tiles: nat): Program {
    (thread: nat, epoch: nat, a: Access) => Scheduled(st, tiles, thread, epoch, a)
  }

  ghost function Groups(): seq<nat> {
    seq(THREADS, t requires 0 <= t < THREADS => t / WAVE)
  }

  // ---------------------------------------------------------------- who owns a cell

  /** The part of shared memory a cell belongs to, as finely as barriers have to tell apart. */
  datatype Tag =
    | KFragment(index: nat)
    | VFragment(index: nat)
    | ScoreRows(subgroup: nat)
    | WeightRows(subgroup: nat)
    | OldScaleRows(subgroup: nat)
    | SumRows(subgroup: nat)
    | Outside

  function TagOfCell(st: nat, cell: nat): Tag {
    var byte := cell * 4;
    if byte < VBase(st) then KFragment(cell / 4)
    else if byte < ScoreBase(st) then VFragment((cell - VBase(st) / 4) / 4)
    else if byte < WeightBase(st) then ScoreRows(if byte < ScoreBase(st) + 64 * KeyTile(st) then 0 else 1)
    else if byte < OldScaleBase(st) then WeightRows(if byte < WeightBase(st) + 32 * KeyTile(st) then 0 else 1)
    else if byte < SumBase(st) then OldScaleRows(if byte < OldScaleBase(st) + 64 then 0 else 1)
    else if byte < SharedBytes(st) then SumRows(if byte < SumBase(st) + 64 then 0 else 1)
    else Outside
  }

  function TagOfOp(st: nat, op: Op): Tag {
    match op
    case StageK(b, f, s, l) => KFragment(FragmentIndex(st, b, f, s, l))
    case StageV(b, f, s, l) => VFragment(FragmentIndex(st, b, f, s, l))
    case LoadK(b, f, s, l) => KFragment(FragmentIndex(st, b, f, s, l))
    case LoadV(b, f, s, l) => VFragment(FragmentIndex(st, b, f, s, l))
    case StoreScore(g, _, _) => ScoreRows(g)
    case LoadScore(g, _, _, _) => ScoreRows(g)
    case StoreWeight(g, _, _) => WeightRows(g)
    case LoadWeight(g, _, _) => WeightRows(g)
    case StoreOldScale(g, _) => OldScaleRows(g)
    case LoadOldScale(g, _) => OldScaleRows(g)
    case StoreSum(g, _) => SumRows(g)
    case LoadSum(g, _) => SumRows(g)
  }

  lemma FragmentIndexBound(st: nat, b: nat, f: nat, s: nat, l: nat)
    requires Candidate(st) && b < 2 && f < FRAGMENTS && s < st && l < WAVE
    ensures FragmentIndex(st, b, f, s, l) < 512 * st
  {
    if st == 1 { } else { }
  }

  /** Four cells a fragment element. */
  lemma FragmentCell(first: nat, index: nat, cell: nat)
    requires Covers(Access(first * FRAGMENT_BYTES + index * FRAGMENT_BYTES, FRAGMENT_BYTES, true, 0), cell)
    ensures 4 * first <= cell && (cell - 4 * first) / 4 == index
  {
    var offset := 16 * (first + index);
    assert offset / GRANULE == 4 * (first + index) && (offset + 15) / GRANULE == 4 * (first + index) + 3;
  }

  lemma FragmentCells(st: nat, index: nat, cell: nat, inV: bool)
    requires Candidate(st) && index < 512 * st
    requires Covers(Access((if inV then VBase(st) else 0) + index * FRAGMENT_BYTES, FRAGMENT_BYTES, true, 0), cell)
    ensures TagOfCell(st, cell) == if inV then VFragment(index) else KFragment(index)
  {
    hide Covers;
    assert VBase(st) == 512 * st * FRAGMENT_BYTES && ScoreBase(st) == 1024 * st * FRAGMENT_BYTES;
    FragmentCell(if inV then 512 * st else 0, index, cell);
  }

  lemma RowKeyBound(st: nat, g: nat, r: nat, k: nat)
    requires Candidate(st) && g < 2 && r < QUERY_TILE && k < KeyTile(st)
    ensures g * QUERY_TILE * KeyTile(st) <= RowKey(st, g, r, k) < (g + 1) * QUERY_TILE * KeyTile(st)
  {
    if st == 1 { } else { }
  }

  lemma ScoreCells(st: nat, g: nat, at: nat, cell: nat)
    requires Candidate(st) && g < 2 && g * QUERY_TILE * KeyTile(st) <= at < (g + 1) * QUERY_TILE * KeyTile(st)
    requires Covers(Access(ScoreBase(st) + at * 4, 4, true, 0), cell)
    ensures TagOfCell(st, cell) == ScoreRows(g)
  {
    if st == 1 { } else { }
  }

  lemma WeightCells(st: nat, g: nat, at: nat, cell: nat)
    requires Candidate(st) && g < 2 && g * QUERY_TILE * KeyTile(st) <= at < (g + 1) * QUERY_TILE * KeyTile(st)
    requires Covers(Access(WeightBase(st) + at * 2, 2, true, 0), cell)
    ensures TagOfCell(st, cell) == WeightRows(g)
  {
    if st == 1 { } else { }
  }

  lemma RowCells(st: nat, g: nat, r: nat, cell: nat, sums: bool)
    requires Candidate(st) && g < 2 && r < QUERY_TILE
    requires Covers(Access((if sums then SumBase(st) else OldScaleBase(st)) + (g * QUERY_TILE + r) * 4, 4, true, 0),
                    cell)
    ensures TagOfCell(st, cell) == if sums then SumRows(g) else OldScaleRows(g)
  {
    if st == 1 { } else { }
  }

  lemma SameCells(a: Access, b: Access, cell: nat)
    requires a.offset == b.offset && a.bytes == b.bytes
    ensures Covers(a, cell) <==> Covers(b, cell)
  {
  }

  /** The regions do not overlap: every cell an operation covers carries the operation's tag. */
  lemma CellsCarryTags(st: nat, op: Op, cell: nat)
    requires Candidate(st) && InBounds(st, op) && Covers(AccessOf(st, op), cell)
    ensures TagOfCell(st, cell) == TagOfOp(st, op)
  {
    var a := AccessOf(st, op);
    SameCells(a, Access(a.offset, a.bytes, true, 0), cell);
    if op.StageK? || op.LoadK? || op.StageV? || op.LoadV? {
      FragmentIndexBound(st, op.buffer, op.fragment, op.subtile, op.lane);
      FragmentCells(st, FragmentIndex(st, op.buffer, op.fragment, op.subtile, op.lane), cell, op.StageV? || op.LoadV?);
    } else if op.StoreScore? || op.LoadScore? {
      RowKeyBound(st, op.subgroup, op.row, op.key);
      ScoreCells(st, op.subgroup, RowKey(st, op.subgroup, op.row, op.key), cell);
    } else if op.StoreWeight? || op.LoadWeight? {
      RowKeyBound(st, op.subgroup, op.row, op.key);
      WeightCells(st, op.subgroup, RowKey(st, op.subgroup, op.row, op.key), cell);
    } else {
      RowCells(st, op.subgroup, op.row, cell, op.StoreSum? || op.LoadSum?);
    }
  }

  /** The element's linear number, and with it the staging thread, is determined by its cell. */
  lemma StagingThreadUnique(st: nat, l: nat, m: nat, x: Op, y: Op)
    requires Candidate(st) && InBounds(st, x) && InBounds(st, y)
    requires (x.StageK? && y.StageK?) || (x.StageV? && y.StageV?)
    requires x.buffer == y.buffer && TagOfOp(st, x) == TagOfOp(st, y)
    requires StagedBy(st, l, x.fragment, x.subtile, x.lane) && StagedBy(st, m, y.fragment, y.subtile, y.lane)
    ensures l == m
  {
    if st == 1 { } else { }
  }

  lemma SharersOnlyLoad(st: nat, tiles: nat, l: nat, m: nat, e: nat, x: Op, y: Op)
    requires Candidate(st) && l / WAVE != m / WAVE && TagOfOp(st, x) == TagOfOp(st, y)
    requires Performs(st, tiles, l, e, x) && Performs(st, tiles, m, e, y)
    ensures !AccessOf(st, x).store && !AccessOf(st, y).store
  {
    if e / 4 < tiles && e % 4 == 0 {
      StagingThreadUnique(st, l, m, x, y);
    }
  }

  lemma PerformedInBounds(st: nat, tiles: nat, thread: nat, epoch: nat, op: Op)
    requires Performs(st, tiles, thread, epoch, op)
    ensures InBounds(st, op)
  {
  }

  lemma SharedCellIsLoaded(st: nat, tiles: nat, l: nat, m: nat, e: nat, x: Op, y: Op, c: nat)
    requires Candidate(st) && l / WAVE != m / WAVE && Covers(AccessOf(st, x), c) && Covers(AccessOf(st, y), c)
    requires Performs(st, tiles, l, e, x) && Performs(st, tiles, m, e, y)
    ensures !AccessOf(st, x).store && !AccessOf(st, y).store
  {
    hide *;
    PerformedInBounds(st, tiles, l, e, x);
    PerformedInBounds(st, tiles, m, e, y);
    CellsCarryTags(st, x, c);
    CellsCarryTags(st, y, c);
    SharersOnlyLoad(st, tiles, l, m, e, x, y);
  }

  lemma ScheduleIsRaceFree(st: nat, tiles: nat)
    requires Candidate(st)
    ensures RaceFree(Groups(), Schedule(st, tiles))
  {
    hide AccessOf, TagOfOp, TagOfCell, Performs, InBounds, Covers;
    var p := Schedule(st, tiles);
    forall l, m, e: nat, a, b, c |
      0 <= l < THREADS && 0 <= m < THREADS && Groups()[l] != Groups()[m]
      && p(l, e, a) && p(m, e, b) && Covers(a, c) && Covers(b, c)
      ensures !a.store && !b.store
    {
      var x :| Performs(st, tiles, l, e, x) && AccessOf(st, x) == a;
      var y :| Performs(st, tiles, m, e, y) && AccessOf(st, y) == b;
      SharedCellIsLoaded(st, tiles, l, m, e, x, y, c);
    }
  }

  /** An operation of a later tile that covers the same cells. */
  ghost function Again(op: Op): Op {
    match op
    case LoadK(b, f, s, l) => StageK(b, f, s, l)
    case LoadV(b, f, s, l) => StageV(b, f, s, l)
    case StoreScore(g, r, k) => LoadScore(g, r, k, false)
    case LoadWeight(g, r, k) => StoreWeight(g, r, k)
    case LoadOldScale(g, r) => StoreOldScale(g, r)
    case LoadSum(g, r) => StoreSum(g, r)
    case _ => op
  }

  /** Every cell is touched again within two tiles. */
  lemma TouchedAgain(st: nat, tiles: nat, thread: nat, epoch: nat, op: Op) returns (n: nat, e: nat)
    requires Candidate(st) && thread < THREADS && Performs(st, tiles, thread, epoch, op)
    requires epoch / 4 + 2 < tiles
    ensures n < THREADS && epoch + 1 < e <= epoch + 10
    ensures Performs(st, tiles, n, e, Again(op))
    ensures AccessOf(st, Again(op)).offset == AccessOf(st, op).offset
    ensures AccessOf(st, Again(op)).bytes == AccessOf(st, op).bytes
  {
    hide AccessOf;
    var tile := epoch / 4 + 2;
    SameCellsAgain(st, op);
    if op.StageK? || op.StageV? || op.LoadK? || op.LoadV? {
      n := ((op.fragment * st + op.subtile) * WAVE + op.lane) % THREADS;
      e := 4 * tile;
      StagedAgain(st, tiles, tile, n, op);
    } else {
      n := op.subgroup * WAVE;
      e := 4 * tile + 2;
      RowAgain(st, tiles, tile, op);
    }
  }

  lemma SameCellsAgain(st: nat, op: Op)
    ensures AccessOf(st, Again(op)).offset == AccessOf(st, op).offset
    ensures AccessOf(st, Again(op)).bytes == AccessOf(st, op).bytes
    ensures InBounds(st, op) ==> InBounds(st, Again(op))
  {
  }

  lemma StagedAgain(st: nat, tiles: nat, tile: nat, n: nat, op: Op)
    requires tile < tiles && InBounds(st, Again(op)) && (op.StageK? || op.StageV? || op.LoadK? || op.LoadV?)
    requires op.buffer == tile % 2 && StagedBy(st, n, op.fragment, op.subtile, op.lane)
    ensures Performs(st, tiles, n, 4 * tile, Again(op))
  {
    hide StagedBy;
  }

  lemma RowAgain(st: nat, tiles: nat, tile: nat, op: Op)
    requires tile < tiles && InBounds(st, Again(op)) && !(op.StageK? || op.StageV? || op.LoadK? || op.LoadV?)
    ensures Performs(st, tiles, op.subgroup * WAVE, 4 * tile + 2, Again(op))
  {
    assert op.subgroup < 2;
  }

  lemma ScheduleIsRoomy(st: nat, tiles: nat)
    requires Candidate(st)
    ensures Roomy(Groups(), Schedule(st, tiles))
  {
    var p := Schedule(st, tiles);
    forall l, m, e1: nat, e2: nat, a, b, c |
      0 <= l < THREADS && 0 <= m < THREADS && e1 + EPOCHS <= e2
      && p(l, e1, a) && p(m, e2, b) && Covers(a, c) && Covers(b, c)
      ensures TouchedWithin(Groups(), p, c, e1, e2)
    {
      var x :| Performs(st, tiles, l, e1, x) && AccessOf(st, x) == a;
      var y :| Performs(st, tiles, m, e2, y) && AccessOf(st, y) == b;
      var n, e := TouchedAgain(st, tiles, l, e1, x);
      var d := AccessOf(st, Again(x));
      assert Scheduled(st, tiles, n, e, d);
      assert p(n, e, d) && Covers(d, c);
    }
  }

  lemma ScheduleIsDense(st: nat, tiles: nat)
    requires Candidate(st)
    ensures Dense(Groups(), Schedule(st, tiles))
  {
    ScheduleIsRoomy(st, tiles);
    RoomyIsDense(Groups(), Schedule(st, tiles));
  }

  /** Main result: for every sequence length and both tile shapes, in every interleaving of the 64
      threads, the exact-shadow detector never reports a conflict in the kernel. */
  lemma AttentionIsNeverReported(st: nat, tiles: nat, cfg: DetectorMachine.Config, s: DetectorMachine.State,
                                 evs: seq<DetectorMachine.Event>)
    requires Candidate(st) && cfg.group == Groups()
    requires DetectorMachine.Init(cfg, s) && DetectorMachine.Runnable(cfg, s, evs)
    requires FollowingRun(cfg, Schedule(st, tiles), s, evs)
    ensures forall v :: v in DetectorMachine.Run(cfg, s, evs).verdicts ==> !v.emitted
  {
    ScheduleIsRaceFree(st, tiles);
    ScheduleIsDense(st, tiles);
    CleanProgramsAreNeverReported(cfg, Schedule(st, tiles), s, evs);
  }

  // ---------------------------------------------------------------- what is shared across a barrier

  lemma BuffersApart(st: nat, x: Op, y: Op)
    requires Candidate(st) && InBounds(st, x) && InBounds(st, y)
    requires x.StageK? || x.LoadK? || x.StageV? || x.LoadV?
    requires y.StageK? || y.LoadK? || y.StageV? || y.LoadV?
    requires TagOfOp(st, x) == TagOfOp(st, y)
    ensures x.buffer == y.buffer
  {
    if st == 1 { } else { }
  }

  lemma SharersAcrossOnlyLoad(st: nat, tiles: nat, l: nat, m: nat, e: nat, x: Op, y: Op)
    requires Candidate(st) && e % 4 != 0 && e < 4 * tiles
    requires l / WAVE != m / WAVE && TagOfOp(st, x) == TagOfOp(st, y)
    requires Performs(st, tiles, l, e, x) && Performs(st, tiles, m, e + 1, y)
    ensures !AccessOf(st, x).store && !AccessOf(st, y).store
  {
    if e % 4 == 3 && x.LoadV? && y.StageV? { BuffersApart(st, x, y); }
  }

  /** Thread 0 stages an element that the other subgroup's first lane loads after the barrier. */
  lemma StagedElementIsShared(st: nat, tiles: nat, e: nat)
    requires Candidate(st) && e % 4 == 0 && e < 4 * tiles
    ensures !RaceFreeAcross(Groups(), Schedule(st, tiles), e)
  {
    var p, buffer := Schedule(st, tiles), e / 4 % 2;
    var x, y := StageK(buffer, 0, 0, 0), LoadK(buffer, 0, 0, 0);
    var a, b := AccessOf(st, x), AccessOf(st, y);
    assert Performs(st, tiles, 0, e, x) && Performs(st, tiles, WAVE, e + 1, y);
    assert p(0, e, a) && p(WAVE, e + 1, b);
    assert Covers(a, FirstCell(a)) && Covers(b, FirstCell(a));
    assert Groups()[0] == 0 && Groups()[WAVE] == 1;
  }

  lemma AcrossIsRaceFree(st: nat, tiles: nat, e: nat)
    requires Candidate(st) && e % 4 != 0 && e < 4 * tiles
    ensures RaceFreeAcross(Groups(), Schedule(st, tiles), e)
  {
    hide AccessOf, TagOfOp, TagOfCell, Performs, InBounds;
    var p := Schedule(st, tiles);
    forall l, m, a, b, c |
      0 <= l < THREADS && 0 <= m < THREADS && Groups()[l] != Groups()[m]
      && p(l, e, a) && p(m, e + 1, b) && Covers(a, c) && Covers(b, c)
      ensures !a.store && !b.store
    {
      var x :| Performs(st, tiles, l, e, x) && AccessOf(st, x) == a;
      var y :| Performs(st, tiles, m, e + 1, y) && AccessOf(st, y) == b;
      PerformedInBounds(st, tiles, l, e, x);
      PerformedInBounds(st, tiles, m, e + 1, y);
      CellsCarryTags(st, x, c);
      CellsCarryTags(st, y, c);
      SharersAcrossOnlyLoad(st, tiles, l, m, e, x, y);
    }
  }
}
