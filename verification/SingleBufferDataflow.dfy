/** What the single-buffer kernel's schedule is for: gapless shared arrays, the threads that the matrix layout
    calls for, eight fragments of K and of V a tile, and loads that find what the interval before them stored. */
module SingleBufferDataflow {
  import opened ShadowHistory
  import opened SingleBufferSchedule
  import Lanes = AttentionSchedule
  import Digits = AttentionDataflow

  const SHARED_BYTES: nat := 4352

  predicate Writes(op: Op) {
    op.StoreK? || op.StoreV? || op.StoreScore? || op.StoreWeight? || op.StoreOldScale? || op.StoreSum?
  }

  /** The write of the element that an operation concerns. */
  function Element(op: Op): Op {
    match op
    case LoadK(l) => StoreK(l)
    case LoadV(l) => StoreV(l)
    case LoadScore(g, r, k, _) => StoreScore(g, r, k)
    case LoadWeight(g, r, k) => StoreWeight(g, r, k)
    case LoadOldScale(g, r) => StoreOldScale(g, r)
    case LoadSum(g, r) => StoreSum(g, r)
    case _ => op
  }

  /** A load reads the bytes of its element. */
  lemma LoadsReadTheirElement(op: Op)
    ensures Writes(Element(op)) && (InBounds(Element(op)) <==> InBounds(op))
    ensures AccessOf(op).offset == AccessOf(Element(op)).offset && AccessOf(op).bytes == AccessOf(Element(op)).bytes
    ensures AccessOf(op).store == Writes(op) && AccessOf(Element(op)).store
  {
  }

  predicate At(op: Op, byte: nat) { AccessOf(op).offset <= byte < AccessOf(op).offset + AccessOf(op).bytes }

  /** The element that a byte belongs to. */
  function ElementAt(byte: nat): Op
    requires byte < SHARED_BYTES
  {
    if byte < 512 then StoreK(byte / 16)
    else if byte < 1024 then StoreV((byte - 512) / 16)
    else if byte < 3072 then
      var x := (byte - 1024) / 4; StoreScore(x / 256, x / 16 % 16, x % 16)
    else if byte < 4096 then
      var x := (byte - 3072) / 2; StoreWeight(x / 256, x / 16 % 16, x % 16)
    else if byte < 4224 then
      var x := (byte - 4096) / 4; StoreOldScale(x / 16, x % 16)
    else
      var x := (byte - 4224) / 4; StoreSum(x / 16, x % 16)
  }

  /** Every byte of the shared memory belongs to an element. */
  lemma EveryByteHasAnElement(byte: nat)
    requires byte < SHARED_BYTES
    ensures Writes(ElementAt(byte)) && InBounds(ElementAt(byte)) && At(ElementAt(byte), byte)
  {
    if 1024 <= byte < 3072 { Digits.RowKeyParts((byte - 1024) / 4, 16); }
    if 3072 <= byte < 4096 { Digits.RowKeyParts((byte - 3072) / 2, 16); }
  }

  lemma KeyByte(g: nat, r: nat, k: nat, at: int, size: nat)
    requires g < 2 && r < 16 && k < 16 && (size == 2 || size == 4)
    requires ((g * 16 + r) * 16 + k) * size <= at < ((g * 16 + r) * 16 + k) * size + size
    ensures 0 <= at < 512 * size && at / size == (g * 16 + r) * 16 + k
  {
    if size == 2 { } else { }
  }

  /** And to no other: the arrays neither overlap nor leave a gap. */
  lemma EveryByteHasOneElement(op: Op, byte: nat)
    requires Writes(op) && InBounds(op) && At(op, byte)
    ensures byte < SHARED_BYTES && ElementAt(byte) == op
  {
    match op
    case StoreScore(g, r, k) => KeyByte(g, r, k, byte - 1024, 4); Digits.RowKeyDigits(g, r, k, 16);
    case StoreWeight(g, r, k) => KeyByte(g, r, k, byte - 3072, 2); Digits.RowKeyDigits(g, r, k, 16);
    case StoreOldScale(g, r) => Digits.RowByte(g, r, byte - 4096);
    case StoreSum(g, r) => Digits.RowByte(g, r, byte - 4224);
    case _ =>
  }

  // ---------------------------------------------------------------- who does what, and when

  /** Subgroup 0 stores the fragments, lane by lane, and both subgroups load them; the rest is as in the
      double-buffered kernel. */
  predicate Assigned(thread: nat, op: Op) {
    match op
    case StoreK(l) => thread == l
    case StoreV(l) => thread == l
    case LoadK(l) => thread % 32 == l
    case LoadV(l) => thread % 32 == l
    case StoreScore(g, r, k) => thread == 32 * g + 16 * (r / 8) + k
    case LoadWeight(g, r, k) => thread == 32 * g + 16 * (k / 4 % 2) + r
    case LoadOldScale(g, r) => thread / 32 == g && thread % 32 / 16 == r / 8
    case LoadSum(g, r) => thread / 32 == g && thread % 32 / 16 == r / 8
    case _ => thread == 32 * op.subgroup
  }

  /** K fragment n is stored in interval 2n of a tile and loaded in the next, V fragment n in interval 18 + 2n and
      the next; scores, softmax and rescaling are intervals 16, 17 and 18 of 34. */
  predicate Timed(tiles: nat, epoch: nat, op: Op) {
    var i := epoch % 34;
    match op
    case LoadSum(_, _) => epoch == 34 * tiles
    case StoreK(_) => epoch < 34 * tiles && i / 2 < 8 && i % 2 == 0
    case LoadK(_) => epoch < 34 * tiles && i / 2 < 8 && i % 2 == 1
    case StoreScore(_, _, _) => epoch < 34 * tiles && i == 16
    case LoadScore(_, _, _, _) => epoch < 34 * tiles && i == 17
    case StoreWeight(_, _, _) => epoch < 34 * tiles && i == 17
    case StoreOldScale(_, _) => epoch < 34 * tiles && i == 17
    case StoreSum(_, _) => epoch < 34 * tiles && i == 17
    case LoadOldScale(_, _) => epoch < 34 * tiles && i == 18
    case LoadWeight(_, _, _) => epoch < 34 * tiles && i == 18
    case StoreV(_) => epoch < 34 * tiles && 18 <= i && (i - 18) / 2 < 8 && i % 2 == 0
    case LoadV(_) => epoch < 34 * tiles && 18 <= i && (i - 18) / 2 < 8 && i % 2 == 1
  }

  /** The kernel performs an operation exactly in its interval and by its threads. */
  lemma PerformedAsAssigned(tiles: nat, thread: nat, epoch: nat, op: Op)
    requires thread < 64
    ensures Performs(tiles, thread, epoch, op) <==> InBounds(op) && Timed(tiles, epoch, op) && Assigned(thread, op)
  {
    hide Lanes.AccumulatorRow, Lanes.WeightKey;
    if InBounds(op) {
      if op.StoreScore? || op.LoadOldScale? || op.LoadSum? { Digits.RowsOfLane(thread % 32, op.row); }
      if op.LoadWeight? { Digits.KeysOfLane(thread % 32, op.key); }
      if op.StoreScore? || op.LoadWeight? { Digits.LaneOfKey(thread, op.subgroup, op.row, op.key); }
    }
  }

  /** The thread that writes an element. */
  function Writer(op: Op): nat {
    match op
    case StoreK(l) => l
    case StoreV(l) => l
    case StoreScore(g, r, k) => 32 * g + 16 * (r / 8) + k
    case StoreWeight(g, _, _) => 32 * g
    case StoreOldScale(g, _) => 32 * g
    case StoreSum(g, _) => 32 * g
    case _ => 0
  }

  /** Every element is written by exactly one thread in each interval that writes it. */
  lemma EveryElementHasOneWriter(tiles: nat, epoch: nat, op: Op, thread: nat)
    requires InBounds(op) && Writes(op) && Timed(tiles, epoch, op) && thread < 64
    ensures Writer(op) < 64 && (Performs(tiles, thread, epoch, op) <==> thread == Writer(op))
  {
    hide Performs;
    PerformedAsAssigned(tiles, thread, epoch, op);
  }

  /** Every load finds what was stored for it: its element was written in the interval just before (for the final
      division, in the softmax of the last tile), and no thread has written it since. */
  lemma LoadsFindTheirInterval(tiles: nat, thread: nat, epoch: nat, op: Op)
    requires thread < 64 && Performs(tiles, thread, epoch, op) && !Writes(op) && (op.LoadSum? ==> 0 < tiles)
    ensures var e := if op.LoadSum? then 34 * (tiles - 1) + 17 else epoch - 1;
            && 0 <= e < epoch
            && Writer(Element(op)) < 64 && Performs(tiles, Writer(Element(op)), e, Element(op))
            && forall t: nat, between: nat :: t < 64 && e < between <= epoch ==>
                 !Performs(tiles, t, between, Element(op))
  {
    hide Performs;
    var e, w := if op.LoadSum? then 34 * (tiles - 1) + 17 else epoch - 1, Element(op);
    PerformedAsAssigned(tiles, thread, epoch, op);
    LoadsReadTheirElement(op);
    Before(tiles, epoch, op);
    PerformedAsAssigned(tiles, Writer(w), e, w);
    forall t: nat, between: nat | t < 64 && e < between <= epoch ensures !Performs(tiles, t, between, w) {
      PerformedAsAssigned(tiles, t, between, w);
      NotBetween(tiles, epoch, op, e, between);
    }
  }

  lemma Before(tiles: nat, epoch: nat, op: Op)
    requires Timed(tiles, epoch, op) && !Writes(op) && (op.LoadSum? ==> 0 < tiles)
    ensures var e := if op.LoadSum? then 34 * (tiles - 1) + 17 else epoch - 1;
            0 <= e < epoch && Timed(tiles, e, Element(op))
  {
    if !op.LoadSum? { Previous(epoch); }
  }

  lemma Previous(epoch: nat)
    ensures 0 < epoch % 34 ==> 0 < epoch && (epoch - 1) % 34 == epoch % 34 - 1
  {
  }

  lemma NotBetween(tiles: nat, epoch: nat, op: Op, e: nat, between: nat)
    requires Timed(tiles, epoch, op) && !Writes(op) && (op.LoadSum? ==> 0 < tiles)
    requires e == (if op.LoadSum? then 34 * (tiles - 1) + 17 else epoch - 1) && e < between <= epoch
    ensures !Timed(tiles, between, Element(op))
  {
  }
}
