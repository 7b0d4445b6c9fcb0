/** What the double-buffered kernel's schedule is for: the shared arrays fill the shared memory without gaps or
    overlap, every element is written and read by the threads the matrix layout calls for, and every load finds
    what its own tile stored. */
module AttentionDataflow {
  import opened Arith
  import opened ShadowHistory
  import opened AttentionSchedule

  // ---------------------------------------------------------------- the shared memory

  /** The operations that write, one for each element of the shared arrays. */
  predicate Writes(op: Op) {
    op.StageK? || op.StageV? || op.StoreScore? || op.StoreWeight? || op.StoreOldScale? || op.StoreSum?
  }

  /** The write of the element that an operation concerns. */
  function Element(op: Op): Op {
    match op
    case LoadK(b, f, s, l) => StageK(b, f, s, l)
    case LoadV(b, f, s, l) => StageV(b, f, s, l)
    case LoadScore(g, r, k, _) => StoreScore(g, r, k)
    case LoadWeight(g, r, k) => StoreWeight(g, r, k)
    case LoadOldScale(g, r) => StoreOldScale(g, r)
    case LoadSum(g, r) => StoreSum(g, r)
    case _ => op
  }

  /** A load reads the bytes of its element. */
  lemma LoadsReadTheirElement(st: nat, op: Op)
    ensures Writes(Element(op)) && (InBounds(st, Element(op)) <==> InBounds(st, op))
    ensures AccessOf(st, op).offset == AccessOf(st, Element(op)).offset
    ensures AccessOf(st, op).bytes == AccessOf(st, Element(op)).bytes
    ensures AccessOf(st, op).store == Writes(op) && AccessOf(st, Element(op)).store
  {
  }

  predicate At(st: nat, op: Op, byte: nat) {
    AccessOf(st, op).offset <= byte < AccessOf(st, op).offset + AccessOf(st, op).bytes
  }

  /** Where the arrays begin, for one and for two subtiles, and how large they are together. */
  lemma RegionsInBytes()
    ensures VBase(1) == 8192 && ScoreBase(1) == 16384 && WeightBase(1) == 18432 && OldScaleBase(1) == 19456
    ensures SumBase(1) == 19584 && SharedBytes(1) == 19712
    ensures VBase(2) == 16384 && ScoreBase(2) == 32768 && WeightBase(2) == 36864 && OldScaleBase(2) == 38912
    ensures SumBase(2) == 39040 && SharedBytes(2) == 39168
  {
  }

  function FragmentAt(st: nat, index: nat, value: bool): Op
    requires 0 < st
  {
    var rest := index / 32;
    if value then StageV(rest / st / 8, rest / st % 8, rest % st, index % 32)
    else StageK(rest / st / 8, rest / st % 8, rest % st, index % 32)
  }

  /** The element that a byte belongs to. */
  function ElementAt(st: nat, byte: nat): Op
    requires Candidate(st) && byte < SharedBytes(st)
  {
    if byte < VBase(st) then FragmentAt(st, byte / 16, false)
    else if byte < ScoreBase(st) then FragmentAt(st, (byte - VBase(st)) / 16, true)
    else if byte < WeightBase(st) then
      var x := (byte - ScoreBase(st)) / 4; StoreScore(x / (256 * st), x / (16 * st) % 16, x % (16 * st))
    else if byte < OldScaleBase(st) then
      var x := (byte - WeightBase(st)) / 2; StoreWeight(x / (256 * st), x / (16 * st) % 16, x % (16 * st))
    else if byte < SumBase(st) then
      var x := (byte - OldScaleBase(st)) / 4; StoreOldScale(x / 16, x % 16)
    else
      var x := (byte - SumBase(st)) / 4; StoreSum(x / 16, x % 16)
  }

  /** Every byte of the shared memory belongs to an element. */
  lemma EveryByteHasAnElement(st: nat, byte: nat)
    requires Candidate(st) && byte < SharedBytes(st)
    ensures var op := ElementAt(st, byte); Writes(op) && InBounds(st, op) && At(st, op, byte)
  {
    hide FragmentIndex, RowKey, FragmentAt;
    if byte < VBase(st) {
      FragmentHas(st, byte / 16, false);
    } else if byte < ScoreBase(st) {
      FragmentHas(st, (byte - VBase(st)) / 16, true);
    } else if byte < WeightBase(st) {
      RowKeyHas(st, (byte - ScoreBase(st)) / 4);
    } else if byte < OldScaleBase(st) {
      RowKeyHas(st, (byte - WeightBase(st)) / 2);
    }
  }

  lemma FragmentHas(st: nat, index: nat, value: bool)
    requires Candidate(st) && index < 512 * st
    ensures var op := FragmentAt(st, index, value);
            && (if value then op.StageV? else op.StageK?) && InBounds(st, op)
            && FragmentIndex(st, op.buffer, op.fragment, op.subtile, op.lane) == index
  {
    if st == 1 { } else { }
  }

  lemma RowKeyHas(st: nat, x: nat)
    requires Candidate(st) && x < 512 * st
    ensures var g, r, k := x / (256 * st), x / (16 * st) % 16, x % (16 * st);
            g < 2 && r < 16 && k < 16 * st && RowKey(st, g, r, k) == x
  {
    if st == 1 { RowKeyParts(x, 16); } else { RowKeyParts(x, 32); }
  }

  lemma RowKeyParts(x: nat, keys: nat)
    requires keys == 16 || keys == 32
    ensures x == (x / (16 * keys) * 16 + x / keys % 16) * keys + x % keys
  {
    Nested(x, keys, 16);
    Recombine(x, keys);
    Recombine(x / keys, 16);
  }

  lemma FragmentFound(st: nat, b: nat, f: nat, s: nat, l: nat, value: bool)
    requires Candidate(st) && b < 2 && f < 8 && s < st && l < 32
    ensures FragmentAt(st, FragmentIndex(st, b, f, s, l), value) == if value then StageV(b, f, s, l)
                                                                   else StageK(b, f, s, l)
  {
    if st == 1 { } else { }
  }

  lemma RowKeyFound(st: nat, g: nat, r: nat, k: nat)
    requires Candidate(st) && g < 2 && r < 16 && k < 16 * st
    ensures var x := RowKey(st, g, r, k); x / (256 * st) == g && x / (16 * st) % 16 == r && x % (16 * st) == k
  {
    if st == 1 { RowKeyDigits(g, r, k, 16); } else { RowKeyDigits(g, r, k, 32); }
  }

  lemma RowKeyDigits(g: nat, r: nat, k: nat, keys: nat)
    requires (keys == 16 || keys == 32) && r < 16 && k < keys
    ensures var x := (g * 16 + r) * keys + k; x / (16 * keys) == g && x / keys % 16 == r && x % keys == k
  {
    if keys == 16 { } else { }
  }

  lemma FragmentByte(st: nat, b: nat, f: nat, s: nat, l: nat, byte: nat, base: nat)
    requires Candidate(st) && b < 2 && f < 8 && s < st && l < 32
    requires base + FragmentIndex(st, b, f, s, l) * 16 <= byte < base + FragmentIndex(st, b, f, s, l) * 16 + 16
    ensures base <= byte < base + KBytes(st) && (byte - base) / 16 == FragmentIndex(st, b, f, s, l)
  {
    FragmentIndexBound(st, b, f, s, l);
  }

  lemma KeyByte(st: nat, g: nat, r: nat, k: nat, byte: nat, base: nat, size: nat)
    requires Candidate(st) && g < 2 && r < 16 && k < 16 * st && (size == 2 || size == 4)
    requires base + RowKey(st, g, r, k) * size <= byte < base + RowKey(st, g, r, k) * size + size
    ensures base <= byte < base + 512 * st * size && (byte - base) / size == RowKey(st, g, r, k)
  {
    RowKeyBound(st, g, r, k);
  }

  /** And to no other: the arrays neither overlap nor leave a gap. */
  lemma EveryByteHasOneElement(st: nat, op: Op, byte: nat)
    requires Candidate(st) && Writes(op) && InBounds(st, op) && At(st, op, byte)
    ensures byte < SharedBytes(st) && ElementAt(st, byte) == op
  {
    hide FragmentIndex, RowKey, FragmentAt;
    if op.StageK? || op.StageV? {
      FragmentElement(st, op, byte);
    } else if op.StoreScore? || op.StoreWeight? {
      KeyElement(st, op, byte);
    } else {
      RowElement(st, op, byte);
    }
  }

  lemma FragmentElement(st: nat, op: Op, byte: nat)
    requires Candidate(st) && (op.StageK? || op.StageV?) && InBounds(st, op) && At(st, op, byte)
    ensures byte < SharedBytes(st) && ElementAt(st, byte) == op
  {
    hide FragmentIndex, FragmentAt;
    FragmentByte(st, op.buffer, op.fragment, op.subtile, op.lane, byte, if op.StageK? then 0 else VBase(st));
    FragmentFound(st, op.buffer, op.fragment, op.subtile, op.lane, op.StageV?);
  }

  lemma KeyElement(st: nat, op: Op, byte: nat)
    requires Candidate(st) && (op.StoreScore? || op.StoreWeight?) && InBounds(st, op) && At(st, op, byte)
    ensures byte < SharedBytes(st) && ElementAt(st, byte) == op
  {
    hide RowKey;
    var base, size := if op.StoreScore? then ScoreBase(st) else WeightBase(st), if op.StoreScore? then 4 else 2;
    KeyByte(st, op.subgroup, op.row, op.key, byte, base, size);
    RowKeyFound(st, op.subgroup, op.row, op.key);
  }

  lemma RowElement(st: nat, op: Op, byte: nat)
    requires Candidate(st) && (op.StoreOldScale? || op.StoreSum?) && InBounds(st, op) && At(st, op, byte)
    ensures byte < SharedBytes(st) && ElementAt(st, byte) == op
  {
    var base := if op.StoreOldScale? then OldScaleBase(st) else SumBase(st);
    RowByte(op.subgroup, op.row, byte - base);
  }

  lemma RowByte(g: nat, r: nat, at: int)
    requires g < 2 && r < 16 && (g * 16 + r) * 4 <= at < (g * 16 + r) * 4 + 4
    ensures 0 <= at < 128 && at / 4 / 16 == g && at / 4 % 16 == r
  {
  }

  // ---------------------------------------------------------------- who does what

  /** The threads that perform an operation within its interval: a fragment element is staged by the thread of its
      linear number and loaded by its lane of both subgroups; a score is stored by the lane of its key and row
      half, a weight is loaded by the lane of its row and of bit 2 of its key; thread 0 of a subgroup does its
      softmax; a row's scale and sum are loaded by the 16 lanes of its half. */
  predicate Assigned(st: nat, thread: nat, op: Op) {
    match op
    case StageK(_, f, s, l) => thread == ((f * st + s) * 32 + l) % 64
    case StageV(_, f, s, l) => thread == ((f * st + s) * 32 + l) % 64
    case LoadK(_, _, _, l) => thread % 32 == l
    case LoadV(_, _, _, l) => thread % 32 == l
    case StoreScore(g, r, k) => thread == 32 * g + 16 * (r / 8) + k % 16
    case LoadWeight(g, r, k) => thread == 32 * g + 16 * (k / 4 % 2) + r
    case LoadOldScale(g, r) => thread / 32 == g && thread % 32 / 16 == r / 8
    case LoadSum(g, r) => thread / 32 == g && thread % 32 / 16 == r / 8
    case _ => thread == 32 * op.subgroup
  }

  /** The interval of a tile that an operation belongs to, and the tile's buffer. */
  predicate Timed(tiles: nat, epoch: nat, op: Op) {
    match op
    case StageK(b, _, _, _) => epoch < 4 * tiles && epoch % 4 == 0 && b == epoch / 4 % 2
    case StageV(b, _, _, _) => epoch < 4 * tiles && epoch % 4 == 0 && b == epoch / 4 % 2
    case LoadK(b, _, _, _) => epoch < 4 * tiles && epoch % 4 == 1 && b == epoch / 4 % 2
    case StoreScore(_, _, _) => epoch < 4 * tiles && epoch % 4 == 1
    case LoadScore(_, _, _, _) => epoch < 4 * tiles && epoch % 4 == 2
    case StoreWeight(_, _, _) => epoch < 4 * tiles && epoch % 4 == 2
    case StoreOldScale(_, _) => epoch < 4 * tiles && epoch % 4 == 2
    case StoreSum(_, _) => epoch < 4 * tiles && epoch % 4 == 2
    case LoadOldScale(_, _) => epoch < 4 * tiles && epoch % 4 == 3
    case LoadWeight(_, _, _) => epoch < 4 * tiles && epoch % 4 == 3
    case LoadV(b, _, _, _) => epoch < 4 * tiles && epoch % 4 == 3 && b == epoch / 4 % 2
    case LoadSum(_, _) => epoch == 4 * tiles
  }

  lemma RowsOfLane(lane: nat, row: nat)
    requires lane < 32 && row < 16
    ensures (exists elem :: 0 <= elem < ELEMENTS && row == AccumulatorRow(lane, elem)) <==> lane / 16 == row / 8
  {
    if lane / 16 == row / 8 { assert row == AccumulatorRow(lane, row % 8); }
  }

  lemma KeysOfLane(lane: nat, key: nat)
    requires lane < 32 && key < 16
    ensures (exists elem :: 0 <= elem < ELEMENTS && key == WeightKey(lane, elem)) <==> lane / 16 == key / 4 % 2
  {
    hide WeightKey;
    if elem :| 0 <= elem < ELEMENTS && key == WeightKey(lane, elem) { KeyOfElement(lane, elem); }
    if lane / 16 == key / 4 % 2 {
      KeyOfElement(lane, key % 4 + 4 * (key / 8));
      KeyParts(key);
    }
  }

  lemma KeyOfElement(lane: nat, elem: nat)
    requires lane < 32 && elem < 8
    ensures WeightKey(lane, elem) == elem % 4 + 4 * (lane / 16) + 8 * (elem / 4)
    ensures WeightKey(lane, elem) / 4 % 2 == lane / 16
  {
    assert elem % 4 == elem % 2 + 2 * (elem / 2 % 2);
  }

  lemma KeyParts(key: nat)
    requires key < 16
    ensures var elem := key % 4 + 4 * (key / 8);
            elem < 8 && elem % 4 == key % 4 && elem / 4 == key / 8 && key == key % 4 + 4 * (key / 4 % 2) + 8 * (key / 8)
  {
  }

  /** The kernel performs an operation exactly in its interval and by its threads. */
  lemma PerformedAsAssigned(st: nat, tiles: nat, thread: nat, epoch: nat, op: Op)
    requires Candidate(st) && thread < 64
    ensures Performs(st, tiles, thread, epoch, op)
       <==> InBounds(st, op) && Timed(tiles, epoch, op) && Assigned(st, thread, op)
  {
    hide Performs, Timed, Assigned;
    if op.StageK? || op.StageV? || op.LoadK? || op.LoadV? {
      FragmentsAssigned(st, tiles, thread, epoch, op);
    } else {
      RowsAssigned(st, tiles, thread, epoch, op);
    }
  }

  lemma FragmentsAssigned(st: nat, tiles: nat, thread: nat, epoch: nat, op: Op)
    requires Candidate(st) && thread < 64 && (op.StageK? || op.StageV? || op.LoadK? || op.LoadV?)
    ensures Performs(st, tiles, thread, epoch, op)
       <==> InBounds(st, op) && Timed(tiles, epoch, op) && Assigned(st, thread, op)
  {
    hide AccumulatorRow, WeightKey;
  }

  lemma RowsAssigned(st: nat, tiles: nat, thread: nat, epoch: nat, op: Op)
    requires Candidate(st) && thread < 64 && !(op.StageK? || op.StageV? || op.LoadK? || op.LoadV?)
    ensures Performs(st, tiles, thread, epoch, op)
       <==> InBounds(st, op) && Timed(tiles, epoch, op) && Assigned(st, thread, op)
  {
    hide AccumulatorRow, WeightKey, StagedBy;
    if InBounds(st, op) {
      if op.StoreScore? || op.LoadOldScale? || op.LoadSum? || op.LoadWeight? { RowsOfLane(thread % 32, op.row); }
      if op.LoadWeight? { KeysOfLane(thread % 32, op.key % 16); }
      if op.StoreScore? || op.LoadWeight? { LaneOfKey(thread, op.subgroup, op.row, op.key); }
    }
  }

  lemma LaneOfKey(thread: nat, g: nat, row: nat, key: nat)
    requires row < 16
    ensures thread / 32 == g && key % 16 == thread % 32 % 16 && thread % 32 / 16 == row / 8
       <==> thread == 32 * g + 16 * (row / 8) + key % 16
    ensures thread / 32 == g && row == thread % 32 % 16 && thread % 32 / 16 == key % 16 / 4 % 2
       <==> thread == 32 * g + 16 * (key / 4 % 2) + row
  {
    ThreadDigits(thread, g, row / 8, key % 16);
    ThreadDigits(thread, g, key / 4 % 2, row);
    KeyBit(key);
  }

  lemma KeyBit(key: nat)
    ensures key % 16 / 4 % 2 == key / 4 % 2
  {
    Recombine(key, 16);
    FieldBelow(key % 16, 2 * (key / 16), 4, 2);
  }

  lemma ThreadDigits(thread: nat, g: nat, half: nat, low: nat)
    requires half < 2 && low < 16
    ensures thread / 32 == g && thread % 32 / 16 == half && thread % 32 % 16 == low
       <==> thread == 32 * g + 16 * half + low
  {
  }

  /** The thread that writes an element. */
  function Writer(st: nat, op: Op): nat {
    match op
    case StageK(_, f, s, l) => ((f * st + s) * 32 + l) % 64
    case StageV(_, f, s, l) => ((f * st + s) * 32 + l) % 64
    case StoreScore(g, r, k) => 32 * g + 16 * (r / 8) + k % 16
    case StoreWeight(g, _, _) => 32 * g
    case StoreOldScale(g, _) => 32 * g
    case StoreSum(g, _) => 32 * g
    case _ => 0
  }

  /** Every element is written by exactly one thread in each interval that writes it. */
  lemma EveryElementHasOneWriter(st: nat, tiles: nat, epoch: nat, op: Op, thread: nat)
    requires Candidate(st) && InBounds(st, op) && Writes(op) && Timed(tiles, epoch, op) && thread < 64
    ensures Writer(st, op) < 64 && (Performs(st, tiles, thread, epoch, op) <==> thread == Writer(st, op))
  {
    PerformedAsAssigned(st, tiles, thread, epoch, op);
  }

  // ---------------------------------------------------------------- what a load finds

  /** The interval in which the element of a load was written last. */
  function WrittenIn(epoch: nat, op: Op): nat {
    match op
    case LoadK(_, _, _, _) => if epoch < 1 then 0 else epoch - 1
    case LoadV(_, _, _, _) => if epoch < 3 then 0 else epoch - 3
    case LoadSum(_, _) => if epoch < 2 then 0 else epoch - 2
    case _ => if epoch < 1 then 0 else epoch - 1
  }

  /** Every load finds what its own tile stored: its element was written in an earlier interval of the same tile
      (the last tile, for the final division), and no thread has written it since. */
  lemma LoadsFindTheirTile(st: nat, tiles: nat, thread: nat, epoch: nat, op: Op)
    requires Candidate(st) && thread < 64 && Performs(st, tiles, thread, epoch, op) && !Writes(op)
    requires op.LoadSum? ==> 0 < tiles
    ensures var e := WrittenIn(epoch, op);
            && e < epoch && e / 4 == (if op.LoadSum? then tiles - 1 else epoch / 4)
            && Writer(st, Element(op)) < 64 && Performs(st, tiles, Writer(st, Element(op)), e, Element(op))
            && forall t: nat, between: nat :: t < 64 && e < between <= epoch ==>
                 !Performs(st, tiles, t, between, Element(op))
  {
    hide Performs;
    var e, w := WrittenIn(epoch, op), Element(op);
    PerformedAsAssigned(st, tiles, thread, epoch, op);
    LoadsReadTheirElement(st, op);
    PerformedAsAssigned(st, tiles, Writer(st, w), e, w);
    forall t: nat, between: nat | t < 64 && e < between <= epoch ensures !Performs(st, tiles, t, between, w) {
      PerformedAsAssigned(st, tiles, t, between, w);
    }
  }
}
