/** The LDS schedule of the single-buffer attention kernel: one shared fragment of K and one of V, each
    reloaded eight times a tile with a barrier before and after every use. */
module SingleBufferSchedule {
  import opened ShadowHistory
  import opened ShadowWords
  import opened CleanPrograms
  import DetectorMachine
  import Lanes = AttentionSchedule

  const ROWS: nat := 16
  const KEYS: nat := 16
  const FRAGMENT_BYTES: nat := 16
  /** Barrier intervals of one key tile: 8 K fragments of two, scores, softmax, rescaling, then V; the
      first V fragment is stored in the rescaling interval. */
  const INTERVALS: nat := 34

  const V_BASE: nat := 512
  const SCORE_BASE: nat := 1024
  const WEIGHT_BASE: nat := 3072
  const OLD_SCALE_BASE: nat := 4096
  const SUM_BASE: nat := 4224

  datatype Op =
    | StoreK(lane: nat)
    | LoadK(lane: nat)
    | StoreV(lane: nat)
    | LoadV(lane: nat)
    | StoreScore(subgroup: nat, row: nat, key: nat)
    | LoadScore(subgroup: nat, row: nat, key: nat, forWeight: bool)
    | StoreWeight(subgroup: nat, row: nat, key: nat)
    | LoadWeight(subgroup: nat, row: nat, key: nat)
    | StoreOldScale(subgroup: nat, row: nat)
    | LoadOldScale(subgroup: nat, row: nat)
    | StoreSum(subgroup: nat, row: nat)
    | LoadSum(subgroup: nat, row: nat)

  function AccessOf(op: Op): Access {
    match op
    case StoreK(l) => Access(l * FRAGMENT_BYTES, FRAGMENT_BYTES, true, 0xd01)
    case StoreV(l) => Access(V_BASE + l * FRAGMENT_BYTES, FRAGMENT_BYTES, true, 0xd02)
    case LoadK(l) => Access(l * FRAGMENT_BYTES, FRAGMENT_BYTES, false, 0xd03)
    case LoadV(l) => Access(V_BASE + l * FRAGMENT_BYTES, FRAGMENT_BYTES, false, 0xd04)
    case StoreScore(g, r, k) => Access(SCORE_BASE + ((g * ROWS + r) * KEYS + k) * 4, 4, true, 0xd05)
    case LoadScore(g, r, k, w) =>
      Access(SCORE_BASE + ((g * ROWS + r) * KEYS + k) * 4, 4, false, if w then 0xd07 else 0xd06)
    case StoreWeight(g, r, k) => Access(WEIGHT_BASE + ((g * ROWS + r) * KEYS + k) * 2, 2, true, 0xd08)
    case LoadWeight(g, r, k) => Access(WEIGHT_BASE + ((g * ROWS + r) * KEYS + k) * 2, 2, false, 0xd09)
    case StoreOldScale(g, r) => Access(OLD_SCALE_BASE + (g * ROWS + r) * 4, 4, true, 0xd0a)
    case LoadOldScale(g, r) => Access(OLD_SCALE_BASE + (g * ROWS + r) * 4, 4, false, 0xd0b)
    case StoreSum(g, r) => Access(SUM_BASE + (g * ROWS + r) * 4, 4, true, 0xd0c)
    case LoadSum(g, r) => Access(SUM_BASE + (g * ROWS + r) * 4, 4, false, 0xd0d)
  }

  predicate InBounds(op: Op) {
    match op
    case StoreK(l) => l < Lanes.WAVE
    case LoadK(l) => l < Lanes.WAVE
    case StoreV(l) => l < Lanes.WAVE
    case LoadV(l) => l < Lanes.WAVE
    case StoreScore(g, r, k) => g < 2 && r < ROWS && k < KEYS
    case LoadScore(g, r, k, _) => g < 2 && r < ROWS && k < KEYS
    case StoreWeight(g, r, k) => g < 2 && r < ROWS && k < KEYS
    case LoadWeight(g, r, k) => g < 2 && r < ROWS && k < KEYS
    case StoreOldScale(g, r) => g < 2 && r < ROWS
    case LoadOldScale(g, r) => g < 2 && r < ROWS
    case StoreSum(g, r) => g < 2 && r < ROWS
    case LoadSum(g, r) => g < 2 && r < ROWS
  }

  ghost predicate RowOfLane(row: nat, lane: nat) {
    exists elem :: 0 <= elem < Lanes.ELEMENTS && row == Lanes.AccumulatorRow(lane, elem)
  }

  /** Thread `thread` performs `op` in interval `phase` of a tile. Only subgroup 0 reloads fragments. */
  ghost predicate PerformsInTile(thread: nat, phase: nat, op: Op) {
    var g, lane := thread / Lanes.WAVE, thread % Lanes.WAVE;
    if phase < 16 && phase % 2 == 0 then op.StoreK? && g == 0 && op.lane == lane
    else if phase < 16 then op.LoadK? && op.lane == lane
    else if phase == 16 then op.StoreScore? && op.subgroup == g && op.key == lane % 16 && RowOfLane(op.row, lane)
    else if phase == 17 then
      && lane == 0
      && (op.LoadScore? || op.StoreWeight? || op.StoreOldScale? || op.StoreSum?) && op.subgroup == g
    else if phase % 2 == 0 then
      || (op.StoreV? && g == 0 && op.lane == lane)
      || (phase == 18 && op.LoadOldScale? && op.subgroup == g && RowOfLane(op.row, lane))
      || (phase == 18 && op.LoadWeight? && op.subgroup == g && op.row == lane % 16
          && exists elem :: 0 <= elem < Lanes.ELEMENTS && op.key == Lanes.WeightKey(lane, elem))
    else op.LoadV? && op.lane == lane
  }

  ghost predicate Performs(tiles: nat, thread: nat, epoch: nat, op: Op) {
    && InBounds(op)
    && if epoch < INTERVALS * tiles then PerformsInTile(thread, epoch % INTERVALS, op)
       else && epoch == INTERVALS * tiles && op.LoadSum? && op.subgroup == thread / Lanes.WAVE
            && RowOfLane(op.row, thread % Lanes.WAVE)
  }

  ghost predicate Scheduled(tiles: nat, thread: nat, epoch: nat, a: Access) {
    exists op :: Performs(tiles, thread, epoch, op) && AccessOf(op) == a
  }

  ghost function Schedule(tiles: nat): Program {
    (thread: nat, epoch: nat, a: Access) => Scheduled(tiles, thread, epoch, a)
  }

  // ---------------------------------------------------------------- who owns a cell

  datatype Tag =
    | KFragment
    | VFragment
    | ScoreRows(subgroup: nat)
    | WeightRows(subgroup: nat)
    | OldScaleRows(subgroup: nat)
    | SumRows(subgroup: nat)

  function TagOfCell(cell: nat): Tag {
    var byte := cell * 4;
    if byte < V_BASE then KFragment
    else if byte < SCORE_BASE then VFragment
    else if byte < WEIGHT_BASE then ScoreRows((byte - SCORE_BASE) / 1024)
    else if byte < OLD_SCALE_BASE then WeightRows((byte - WEIGHT_BASE) / 512)
    else if byte < SUM_BASE then OldScaleRows((byte - OLD_SCALE_BASE) / 64)
    else SumRows((byte - SUM_BASE) / 64)
  }

  function TagOfOp(op: Op): Tag {
    match op
    case StoreK(_) => KFragment
    case LoadK(_) => KFragment
    case StoreV(_) => VFragment
    case LoadV(_) => VFragment
    case StoreScore(g, _, _) => ScoreRows(g)
    case LoadScore(g, _, _, _) => ScoreRows(g)
    case StoreWeight(g, _, _) => WeightRows(g)
    case LoadWeight(g, _, _) => WeightRows(g)
    case StoreOldScale(g, _) => OldScaleRows(g)
    case LoadOldScale(g, _) => OldScaleRows(g)
    case StoreSum(g, _) => SumRows(g)
    case LoadSum(g, _) => SumRows(g)
  }

  /** The regions do not overlap. */
  lemma CellsCarryTags(op: Op, cell: nat)
    requires InBounds(op) && Covers(AccessOf(op), cell)
    ensures TagOfCell(cell) == TagOfOp(op)
  {
    if !(op.StoreK? || op.LoadK? || op.StoreV? || op.LoadV?) {
      if op.subgroup == 0 { } else { }
    }
  }

  // ---------------------------------------------------------------- race freedom, with and without a barrier

  lemma BoundsOf(tiles: nat, thread: nat, epoch: nat, op: Op)
    requires Performs(tiles, thread, epoch, op)
    ensures InBounds(op)
  {
  }

  lemma SharersOnlyLoad(tiles: nat, l: nat, m: nat, e: nat, x: Op, y: Op)
    requires l < Lanes.THREADS && m < Lanes.THREADS && l / Lanes.WAVE != m / Lanes.WAVE && TagOfOp(x) == TagOfOp(y)
    requires Performs(tiles, l, e, x) && Performs(tiles, m, e, y)
    ensures !AccessOf(x).store && !AccessOf(y).store
  {
  }

  lemma SharedCellIsLoaded(tiles: nat, l: nat, m: nat, e: nat, x: Op, y: Op, c: nat)
    requires l < Lanes.THREADS && m < Lanes.THREADS && l / Lanes.WAVE != m / Lanes.WAVE
    requires Performs(tiles, l, e, x) && Performs(tiles, m, e, y)
    requires Covers(AccessOf(x), c) && Covers(AccessOf(y), c)
    ensures !AccessOf(x).store && !AccessOf(y).store
  {
    hide *;
    BoundsOf(tiles, l, e, x);
    BoundsOf(tiles, m, e, y);
    CellsCarryTags(x, c);
    CellsCarryTags(y, c);
    SharersOnlyLoad(tiles, l, m, e, x, y);
  }

  lemma ScheduleIsRaceFree(tiles: nat)
    ensures RaceFree(Lanes.Groups(), Schedule(tiles))
  {
    hide AccessOf, TagOfOp, TagOfCell, Performs, InBounds, Covers;
    var p := Schedule(tiles);
    forall l, m, e: nat, a, b, c |
      0 <= l < Lanes.THREADS && 0 <= m < Lanes.THREADS && Lanes.Groups()[l] != Lanes.Groups()[m]
      && p(l, e, a) && p(m, e, b) && Covers(a, c) && Covers(b, c)
      ensures !a.store && !b.store
    {
      var x :| Performs(tiles, l, e, x) && AccessOf(x) == a;
      var y :| Performs(tiles, m, e, y) && AccessOf(y) == b;
      SharedCellIsLoaded(tiles, l, m, e, x, y, c);
    }
  }

  /** Around every use of the K fragment and of the V fragment. */
  predicate AroundFragment(phase: nat) { phase < 15 || 18 <= phase < 33 }

  lemma TagsApart(tiles: nat, l: nat, m: nat, e: nat, x: Op, y: Op)
    requires e < INTERVALS * tiles && !AroundFragment(e % INTERVALS)
    requires l < Lanes.THREADS && m < Lanes.THREADS && l / Lanes.WAVE != m / Lanes.WAVE
    requires Performs(tiles, l, e, x) && Performs(tiles, m, e + 1, y)
    ensures TagOfOp(x) != TagOfOp(y)
  {
    hide InBounds, RowOfLane;
    var phase := e % INTERVALS;
    assert phase == 15 || phase == 16 || phase == 17 || phase == 33;
    assert (e + 1) % INTERVALS == if phase == 33 then 0 else phase + 1;
  }

  /** Across any other barrier, subgroups do not share a cell at all. */
  lemma NothingShared(tiles: nat, l: nat, m: nat, e: nat, x: Op, y: Op, cell: nat)
    requires e < INTERVALS * tiles && !AroundFragment(e % INTERVALS)
    requires l < Lanes.THREADS && m < Lanes.THREADS && l / Lanes.WAVE != m / Lanes.WAVE
    requires Performs(tiles, l, e, x) && Performs(tiles, m, e + 1, y)
    ensures !(Covers(AccessOf(x), cell) && Covers(AccessOf(y), cell))
  {
    hide *;
    TagsApart(tiles, l, m, e, x, y);
    BoundsOf(tiles, l, e, x);
    BoundsOf(tiles, m, e + 1, y);
    if Covers(AccessOf(x), cell) { CellsCarryTags(x, cell); }
    if Covers(AccessOf(y), cell) { CellsCarryTags(y, cell); }
  }

  lemma AcrossIsRaceFree(tiles: nat, e: nat)
    requires e < INTERVALS * tiles && !AroundFragment(e % INTERVALS)
    ensures RaceFreeAcross(Lanes.Groups(), Schedule(tiles), e)
  {
    hide AccessOf, TagOfOp, TagOfCell;
    var p := Schedule(tiles);
    forall l, m, a, b, c |
      0 <= l < Lanes.THREADS && 0 <= m < Lanes.THREADS && Lanes.Groups()[l] != Lanes.Groups()[m]
      && p(l, e, a) && p(m, e + 1, b)
      ensures !(Covers(a, c) && Covers(b, c))
    {
      var x :| Performs(tiles, l, e, x) && AccessOf(x) == a;
      var y :| Performs(tiles, m, e + 1, y) && AccessOf(y) == b;
      NothingShared(tiles, l, m, e, x, y, c);
    }
  }

  predicate StoresFragment(phase: nat) { phase % 2 == 0 && (phase < 16 || 18 <= phase < INTERVALS) }

  predicate LoadsFragment(phase: nat) { phase % 2 == 1 && (phase < 16 || 19 <= phase < INTERVALS) }

  function StoreAt(phase: nat): Op { if phase < 16 then StoreK(0) else StoreV(0) }

  function LoadAt(phase: nat): Op { if phase < 16 then LoadK(0) else LoadV(0) }

  /** Thread 0 of subgroup 0 stores lane 0's fragment, or the other subgroup's first thread loads it. */
  lemma FragmentUsed(tiles: nat, e: nat)
    requires e < INTERVALS * tiles
    ensures StoresFragment(e % INTERVALS) ==> Schedule(tiles)(0, e, AccessOf(StoreAt(e % INTERVALS)))
    ensures LoadsFragment(e % INTERVALS) ==> Schedule(tiles)(Lanes.WAVE, e, AccessOf(LoadAt(e % INTERVALS)))
  {
    hide AccessOf, RowOfLane;
    var phase := e % INTERVALS;
    if StoresFragment(phase) { assert Performs(tiles, 0, e, StoreAt(phase)); }
    if LoadsFragment(phase) { assert Performs(tiles, Lanes.WAVE, e, LoadAt(phase)); }
  }

  lemma SameFragment(phase: nat)
    requires phase != 15
    ensures var a, b := AccessOf(StoreAt(phase)), AccessOf(LoadAt(phase + 1));
            a.store && Covers(a, FirstCell(a)) && Covers(b, FirstCell(a))
    ensures var a, b := AccessOf(StoreAt(phase + 1)), AccessOf(LoadAt(phase));
            a.store && Covers(a, FirstCell(a)) && Covers(b, FirstCell(a))
  {
  }

  /** On one side of the barrier subgroup 0 stores lane 0's fragment, on the other subgroup 1 loads it. */
  lemma FragmentIsShared(tiles: nat, e: nat)
    requires e < INTERVALS * tiles && AroundFragment(e % INTERVALS)
    ensures !RaceFreeAcross(Lanes.Groups(), Schedule(tiles), e)
  {
    hide AccessOf, Schedule;
    var p, phase := Schedule(tiles), e % INTERVALS;
    assert (e + 1) % INTERVALS == phase + 1 && e + 1 < INTERVALS * tiles;
    assert Lanes.Groups()[0] == 0 && Lanes.Groups()[Lanes.WAVE] == 1;
    FragmentUsed(tiles, e);
    FragmentUsed(tiles, e + 1);
    SameFragment(phase);
    if phase % 2 == 0 {
      assert p(0, e, AccessOf(StoreAt(phase))) && p(Lanes.WAVE, e + 1, AccessOf(LoadAt(phase + 1)));
    } else {
      assert p(Lanes.WAVE, e, AccessOf(LoadAt(phase))) && p(0, e + 1, AccessOf(StoreAt(phase + 1)));
    }
  }

  // ---------------------------------------------------------------- never reported

  /** An operation of the next tile that covers the same cells, and the interval it belongs to. */
  ghost function Again(op: Op): Op {
    match op
    case LoadK(l) => StoreK(l)
    case LoadV(l) => StoreV(l)
    case StoreScore(g, r, k) => LoadScore(g, r, k, false)
    case LoadWeight(g, r, k) => StoreWeight(g, r, k)
    case LoadOldScale(g, r) => StoreOldScale(g, r)
    case LoadSum(g, r) => StoreSum(g, r)
    case _ => op
  }

  function PhaseOfAgain(op: Op): nat {
    if op.StoreK? || op.LoadK? then 0 else if op.StoreV? || op.LoadV? then 18 else 17
  }

  lemma SameCellsAgain(op: Op)
    ensures AccessOf(Again(op)).offset == AccessOf(op).offset && AccessOf(Again(op)).bytes == AccessOf(op).bytes
    ensures InBounds(op) ==> InBounds(Again(op))
  {
  }

  /** Every cell is touched again in the next tile. */
  lemma TouchedAgain(tiles: nat, thread: nat, epoch: nat, op: Op) returns (n: nat, e: nat)
    requires Performs(tiles, thread, epoch, op) && epoch / INTERVALS + 1 < tiles
    ensures n < Lanes.THREADS && epoch + 1 < e <= epoch + 2 * INTERVALS && Performs(tiles, n, e, Again(op))
  {
    hide AccessOf;
    SameCellsAgain(op);
    var tile := epoch / INTERVALS + 1;
    n := if op.StoreK? || op.LoadK? || op.StoreV? || op.LoadV? then op.lane else op.subgroup * Lanes.WAVE;
    e := INTERVALS * tile + PhaseOfAgain(op);
    assert e % INTERVALS == PhaseOfAgain(op) && e < INTERVALS * tiles;
    assert PerformsInTile(n, PhaseOfAgain(op), Again(op));
  }

  lemma ScheduleIsRoomy(tiles: nat)
    ensures Roomy(Lanes.Groups(), Schedule(tiles))
  {
    hide InBounds, PerformsInTile;
    var p := Schedule(tiles);
    forall l, m, e1: nat, e2: nat, a, b, c |
      0 <= l < Lanes.THREADS && 0 <= m < Lanes.THREADS && e1 + EPOCHS <= e2
      && p(l, e1, a) && p(m, e2, b) && Covers(a, c) && Covers(b, c)
      ensures TouchedWithin(Lanes.Groups(), p, c, e1, e2)
    {
      var x :| Performs(tiles, l, e1, x) && AccessOf(x) == a;
      var y :| Performs(tiles, m, e2, y) && AccessOf(y) == b;
      SameCellsAgain(x);
      var n, e := TouchedAgain(tiles, l, e1, x);
      var d := AccessOf(Again(x));
      assert Scheduled(tiles, n, e, d);
      assert p(n, e, d) && Covers(d, c);
    }
  }

  lemma ScheduleIsDense(tiles: nat)
    ensures Dense(Lanes.Groups(), Schedule(tiles))
  {
    ScheduleIsRoomy(tiles);
    RoomyIsDense(Lanes.Groups(), Schedule(tiles));
  }

  /** For every number of key tiles, in every interleaving of the 64 threads, the exact-shadow detector
      never reports a conflict in the kernel. */
  lemma SingleBufferIsNeverReported(tiles: nat, cfg: DetectorMachine.Config, s: DetectorMachine.State,
                                    evs: seq<DetectorMachine.Event>)
    requires cfg.group == Lanes.Groups()
    requires DetectorMachine.Init(cfg, s) && DetectorMachine.Runnable(cfg, s, evs)
    requires FollowingRun(cfg, Schedule(tiles), s, evs)
    ensures forall v :: v in DetectorMachine.Run(cfg, s, evs).verdicts ==> !v.emitted
  {
    ScheduleIsRaceFree(tiles);
    ScheduleIsDense(tiles);
    CleanProgramsAreNeverReported(cfg, Schedule(tiles), s, evs);
  }
}
