/** The packed 64-bit words of both backends. Fields are disjoint, so combining them with `|` is
    addition, and masking then shifting is division followed by remainder. */
module ShadowWords {
  import opened Arith

  const EMPTY: nat := 0
  const READ: nat := 1
  const WRITE: nat := 2
  const READ_WRITE: nat := 3
  const ATOMIC: nat := 4

  const WORD: nat := 0x1_0000_0000_0000_0000

  function KindOf(store: bool): nat { if store then WRITE else READ }

  predicate KindsConflict(current: nat, prior: nat) {
    if current == EMPTY || prior == EMPTY then false
    else if current == READ then prior != READ
    else if current == ATOMIC then prior != ATOMIC
    else true
  }

  /** Two kinds conflict unless one is empty, both are reads or both are atomics: a symmetric relation. */
  lemma KindsConflictTable(a: nat, b: nat)
    ensures KindsConflict(a, b) <==> a != 0 && b != 0 && !(a == b && (a == 1 || a == 4))
    ensures KindsConflict(a, b) == KindsConflict(b, a)
  {
  }

  // ---------------------------------------------------------------- exact shadow

  const OWNERS: nat := 0x400
  const EPOCHS: nat := 0x400
  const GENERATIONS: nat := 0x10_0000
  const SITES: nat := 0x20_0000

  datatype ExactEntry = ExactEntry(kind: nat, owner: nat, epoch: nat, generation: nat, site: nat)

  function PackExact(kind: nat, owner: nat, epoch: nat, generation: nat, site: nat): (word: nat)
    ensures word < WORD
  {
    kind % 8
    + (owner % OWNERS) * 0x8
    + (epoch % EPOCHS) * 0x2000
    + (generation % GENERATIONS) * 0x80_0000
    + (site % SITES) * 0x800_0000_0000
  }

  function DecodeExact(word: nat): ExactEntry {
    ExactEntry(word % 8, word / 0x8 % OWNERS, word / 0x2000 % EPOCHS,
               word / 0x80_0000 % GENERATIONS, word / 0x800_0000_0000 % SITES)
  }

  /** The quotients that the decoder takes. */
  lemma ExactQuotients(word: nat)
    ensures word / 0x2000 == word / 0x8 / OWNERS
    ensures word / 0x80_0000 == word / 0x8 / OWNERS / EPOCHS
    ensures word / 0x800_0000_0000 == word / 0x8 / OWNERS / EPOCHS / GENERATIONS
  {
    Nested(word, 0x8, 0x400);
    Nested(word, 0x2000, 0x400);
    Nested(word, 0x80_0000, 0x10_0000);
  }

  /** Decoding returns every field, cut to its width. */
  lemma ExactRoundTrip(kind: nat, owner: nat, epoch: nat, generation: nat, site: nat)
    ensures DecodeExact(PackExact(kind, owner, epoch, generation, site))
         == ExactEntry(kind % 8, owner % OWNERS, epoch % EPOCHS, generation % GENERATIONS, site % SITES)
  {
    var w4 := site % SITES;
    var w3 := w4 * GENERATIONS + generation % GENERATIONS;
    var w2 := w3 * EPOCHS + epoch % EPOCHS;
    var w1 := w2 * OWNERS + owner % OWNERS;
    var w := PackExact(kind, owner, epoch, generation, site);
    assert w == w1 * 8 + kind % 8;
    ExactQuotients(w);
    Divide(8, w1, kind % 8);
    Divide(OWNERS, w2, owner % OWNERS);
    Divide(EPOCHS, w3, epoch % EPOCHS);
    Divide(GENERATIONS, w4, generation % GENERATIONS);
  }

  /** Packing what was decoded returns the word: no two words mean the same. */
  lemma ExactWordRoundTrip(word: nat)
    requires word < WORD
    ensures var e := DecodeExact(word); PackExact(e.kind, e.owner, e.epoch, e.generation, e.site) == word
  {
    ExactQuotients(word);
    var w1 := word / 8;
    var w2 := w1 / OWNERS;
    var w3 := w2 / EPOCHS;
    var w4 := w3 / GENERATIONS;
    Recombine(word, 8);
    Recombine(w1, OWNERS);
    Recombine(w2, EPOCHS);
    Recombine(w3, GENERATIONS);
    SitesBelow(word, w1, w2, w3, w4);
    assert DecodeExact(word) == ExactEntry(word % 8, w1 % OWNERS, w2 % EPOCHS, w3 % GENERATIONS, w4);
  }

  lemma SitesBelow(word: nat, w1: nat, w2: nat, w3: nat, w4: nat)
    requires word < WORD && w1 * 8 <= word && w2 * OWNERS <= w1 && w3 * EPOCHS <= w2 && w4 * GENERATIONS <= w3
    ensures w4 < SITES
  {
  }

  predicate ExactConflict(current: ExactEntry, prior: ExactEntry) {
    && prior.kind != EMPTY && current.epoch == prior.epoch && current.generation == prior.generation
    && current.owner != prior.owner && KindsConflict(current.kind, prior.kind)
  }

  // ---------------------------------------------------------------- sampled watchpoints

  const MAX_START: nat := 0x3FFF
  const MAX_COUNT: nat := 32

  datatype SampledEntry = SampledEntry(valid: bool, consumed: bool, kind: nat, owner: nat, epoch: nat,
                                       generation: nat, start: nat, count: nat)

  /** The fields, each already cut to its width, side by side behind the valid bit. */
  function Combine(consumed: bool, kind: nat, owner: nat, epoch: nat, generation: nat, start: nat, stored: nat): nat {
    1
    + (if consumed then 2 else 0)
    + kind * 0x4
    + owner * 0x20
    + epoch * 0x8000
    + generation * 0x200_0000
    + start * 0x2000_0000_0000
    + stored * 0x800_0000_0000_0000
  }

  function PackSampled(kind: nat, owner: nat, epoch: nat, generation: nat, start: nat, count: nat,
                       consumed: bool): (word: nat)
    ensures word < WORD
  {
    var stored := if count == 0 then 0 else count - 1;
    Combine(consumed, kind % 8, owner % OWNERS, epoch % EPOCHS, generation % GENERATIONS, start % 0x4000, stored % 0x20)
  }

  function DecodeSampled(word: nat): SampledEntry {
    SampledEntry(word % 2 != 0, word / 2 % 2 != 0, word / 0x4 % 8, word / 0x20 % OWNERS, word / 0x8000 % EPOCHS,
                 word / 0x200_0000 % GENERATIONS, word / 0x2000_0000_0000 % 0x4000,
                 word / 0x800_0000_0000_0000 % 0x20 + 1)
  }

  /** The fields above bit 15, as one number. */
  lemma SampledHigh(epoch: nat, generation: nat, start: nat, stored: nat)
    requires epoch < EPOCHS && generation < GENERATIONS && start < 0x4000 && stored < 0x20
    ensures var high := epoch + generation * 0x400 + start * 0x4000_0000 + stored * 0x1000_0000_0000;
            && high % EPOCHS == epoch && high / 0x400 % GENERATIONS == generation
            && high / 0x4000_0000 % 0x4000 == start && high / 0x1000_0000_0000 == stored
  {
    var w2 := stored * 0x4000 + start;
    var w1 := w2 * GENERATIONS + generation;
    var high := w1 * 0x400 + epoch;
    Divide(0x400, w1, epoch);
    Divide(GENERATIONS, w2, generation);
    Divide(0x4000, stored, start);
    Divide(0x4000_0000, w2, generation * 0x400 + epoch);
    Divide(0x1000_0000_0000, stored, start * 0x4000_0000 + generation * 0x400 + epoch);
  }

  lemma SampledLow(consumed: bool, kind: nat, owner: nat)
    requires kind < 8 && owner < OWNERS
    ensures var low := 1 + (if consumed then 2 else 0) + kind * 0x4 + owner * 0x20;
            && low < 0x8000 && low % 2 != 0 && (low / 2 % 2 != 0 <==> consumed)
            && low / 0x4 % 8 == kind && low / 0x20 == owner
  {
    var flag := if consumed then 1 else 0;
    var w1 := owner * 8 + kind;
    Divide(2, w1 * 2 + flag, 1);
    Divide(2, w1, flag);
    Divide(4, w1, flag * 2 + 1);
    Divide(8, owner, kind);
    Divide(0x20, owner, kind * 4 + flag * 2 + 1);
  }

  lemma SplitAt15(low: nat, high: nat)
    requires low < 0x8000
    ensures var w := low + 0x8000 * high;
            && w % 2 == low % 2 && w / 2 % 2 == low / 2 % 2 && w / 0x4 % 8 == low / 0x4 % 8
            && w / 0x20 % OWNERS == low / 0x20 && w / 0x8000 == high
  {
    FieldBelow(low, 0x4000 * high, 1, 2);
    FieldBelow(low, 0x2000 * high, 2, 2);
    FieldBelow(low, 0x400 * high, 0x4, 8);
    FieldBelow(low, high, 0x20, 0x400);
    Divide(0x8000, high, low);
  }

  lemma CombineDecodes(consumed: bool, kind: nat, owner: nat, epoch: nat, generation: nat, start: nat, stored: nat)
    requires kind < 8 && owner < OWNERS && epoch < EPOCHS && generation < GENERATIONS && start < 0x4000 && stored < 0x20
    ensures DecodeSampled(Combine(consumed, kind, owner, epoch, generation, start, stored))
         == SampledEntry(true, consumed, kind, owner, epoch, generation, start, stored + 1)
  {
    var low := 1 + (if consumed then 2 else 0) + kind * 0x4 + owner * 0x20;
    var high := epoch + generation * 0x400 + start * 0x4000_0000 + stored * 0x1000_0000_0000;
    SampledLow(consumed, kind, owner);
    SampledHigh(epoch, generation, start, stored);
    SplitAt15(low, high);
    var w := Combine(consumed, kind, owner, epoch, generation, start, stored);
    assert w == low + 0x8000 * high;
    NestedQuotients(w);
  }

  /** Decoding returns the range exactly when it fits (1 to 32 cells below cell 16384), the rest cut. */
  lemma SampledRoundTrip(kind: nat, owner: nat, epoch: nat, generation: nat, start: nat, count: nat, consumed: bool)
    ensures var e := DecodeSampled(PackSampled(kind, owner, epoch, generation, start, count, consumed));
            && e.valid && e.consumed == consumed && e.kind == kind % 8 && e.owner == owner % OWNERS
            && e.epoch == epoch % EPOCHS && e.generation == generation % GENERATIONS
            && (e.start == start <==> start <= MAX_START)
            && (e.count == count <==> 1 <= count <= MAX_COUNT)
  {
    var stored := (if count == 0 then 0 else count - 1) % 0x20;
    CombineDecodes(consumed, kind % 8, owner % OWNERS, epoch % EPOCHS, generation % GENERATIONS, start % 0x4000,
                   stored);
  }

  /** The whole entry comes back when the range fits the encoding. */
  lemma FittingRoundTrip(kind: nat, owner: nat, epoch: nat, generation: nat, start: nat, count: nat)
    requires kind < 8 && start <= MAX_START && 1 <= count <= MAX_COUNT
    ensures DecodeSampled(PackSampled(kind, owner, epoch, generation, start, count, false))
         == SampledEntry(true, false, kind, owner % OWNERS, epoch % EPOCHS, generation % GENERATIONS, start, count)
  {
    hide PackSampled, DecodeSampled;
    SampledRoundTrip(kind, owner, epoch, generation, start, count, false);
  }

  lemma NestedQuotients(w: nat)
    ensures w / 0x200_0000 == w / 0x8000 / 0x400
    ensures w / 0x2000_0000_0000 == w / 0x8000 / 0x4000_0000
    ensures w / 0x800_0000_0000_0000 == w / 0x8000 / 0x1000_0000_0000
  {
    Nested(w, 0x8000, 0x400);
    Nested(w, 0x8000, 0x4000_0000);
    Nested(w, 0x8000, 0x1000_0000_0000);
  }

  // ---------------------------------------------------------------- where the fields lie

  /** A word cut into fields of the given widths, from its low end. */
  ghost function Fields(word: nat, widths: seq<nat>): (r: seq<nat>)
    ensures |r| == |widths|
    decreases |widths|
  {
    if widths == [] then [] else [LowBits(word, widths[0])] + Fields(HighBits(word, widths[0]), widths[1..])
  }

  ghost function LowBits(word: nat, width: nat): nat {
    if width == 0 then 0 else word % 2 + 2 * LowBits(word / 2, width - 1)
  }

  ghost function HighBits(word: nat, width: nat): nat {
    if width == 0 then word else HighBits(word / 2, width - 1)
  }

  lemma {:induction false} BitsSplit(word: nat, width: nat)
    ensures word == HighBits(word, width) * TwoTo(width) + LowBits(word, width) && LowBits(word, width) < TwoTo(width)
  {
    if 0 < width {
      BitsSplit(word / 2, width - 1);
      Associate(HighBits(word, width), 2, TwoTo(width - 1));
      Associate(2, HighBits(word, width), TwoTo(width - 1));
    }
  }

  lemma FirstField(word: nat, width: nat, high: nat, low: nat, widths: seq<nat>)
    requires word == high * TwoTo(width) + low && low < TwoTo(width)
    ensures Fields(word, [width] + widths) == [low] + Fields(high, widths)
  {
    hide TwoTo;
    assert ([width] + widths)[1..] == widths;
    BitsSplit(word, width);
    SplitUnique(TwoTo(width), high, low, HighBits(word, width), LowBits(word, width));
  }

  lemma Widths()
    ensures TwoTo(1) == 2 && TwoTo(3) == 8 && TwoTo(5) == 0x20 && TwoTo(10) == 0x400 && TwoTo(14) == 0x4000
    ensures TwoTo(20) == 0x10_0000 && TwoTo(21) == 0x20_0000
  {
    assert TwoTo(5) == 0x20;
    TwoToSum(5, 5);
    TwoToSum(10, 10);
    TwoToSum(5, 9);
    TwoToSum(5, 4);
    TwoToSum(20, 1);
  }

  /** An exact word is kind, owner, epoch, generation and site in 3, 10, 10, 20 and 21 bits. */
  lemma ExactFields(word: nat)
    ensures var f := Fields(word, [3, 10, 10, 20, 21]);
            DecodeExact(word) == ExactEntry(f[0], f[1], f[2], f[3], f[4])
  {
    hide TwoTo, Fields;
    Widths();
    ExactQuotients(word);
    var q1 := word / 8;
    var q2 := q1 / 0x400;
    var q3 := q2 / 0x400;
    var q4 := q3 / 0x10_0000;
    FirstField(word, 3, q1, word % 8, [10, 10, 20, 21]);
    FirstField(q1, 10, q2, q1 % 0x400, [10, 20, 21]);
    FirstField(q2, 10, q3, q2 % 0x400, [20, 21]);
    FirstField(q3, 20, q4, q3 % 0x10_0000, [21]);
    FirstField(q4, 21, q4 / 0x20_0000, q4 % 0x20_0000, []);
    assert [3] + [10, 10, 20, 21] == [3, 10, 10, 20, 21] && [10] + [10, 20, 21] == [10, 10, 20, 21];
    assert [10] + [20, 21] == [10, 20, 21] && [20] + [21] == [20, 21] && [21] + [] == [21];
  }

  lemma SampledQuotients(word: nat)
    ensures word / 4 == word / 2 / 2 && word / 0x20 == word / 4 / 8 && word / 0x8000 == word / 0x20 / 0x400
    ensures word / 0x200_0000 == word / 0x8000 / 0x400
    ensures word / 0x2000_0000_0000 == word / 0x200_0000 / 0x10_0000
    ensures word / 0x800_0000_0000_0000 == word / 0x2000_0000_0000 / 0x4000
  {
    Nested(word, 2, 2);
    Nested(word, 4, 8);
    Nested(word, 0x20, 0x400);
    Nested(word, 0x8000, 0x400);
    Nested(word, 0x200_0000, 0x10_0000);
    Nested(word, 0x2000_0000_0000, 0x4000);
  }

  lemma HighFields(q: nat)
    ensures var q1 := q / 0x400; var q2 := q1 / 0x10_0000;
            Fields(q, [10, 20, 14, 5]) == [q % 0x400, q1 % 0x10_0000, q2 % 0x4000, q2 / 0x4000 % 0x20]
  {
    hide TwoTo, Fields;
    Widths();
    var q1 := q / 0x400;
    var q2 := q1 / 0x10_0000;
    var q3 := q2 / 0x4000;
    FirstField(q, 10, q1, q % 0x400, [20, 14, 5]);
    FirstField(q1, 20, q2, q1 % 0x10_0000, [14, 5]);
    FirstField(q2, 14, q3, q2 % 0x4000, [5]);
    FirstField(q3, 5, q3 / 0x20, q3 % 0x20, []);
    assert Fields(q3 / 0x20, []) == [];
    assert [10] + [20, 14, 5] == [10, 20, 14, 5] && [20] + [14, 5] == [20, 14, 5] && [14] + [5] == [14, 5];
    assert [5] + [] == [5];
  }

  /** A sampled word is the valid and the consumed bit, then kind, owner, epoch, generation, start and count less
      one in 3, 10, 10, 20, 14 and 5 bits. */
  lemma SampledFields(word: nat)
    ensures var f := Fields(word, [1, 1, 3, 10, 10, 20, 14, 5]);
            DecodeSampled(word) == SampledEntry(f[0] == 1, f[1] == 1, f[2], f[3], f[4], f[5], f[6], f[7] + 1)
  {
    hide TwoTo, Fields;
    Widths();
    SampledQuotients(word);
    var q1, q2 := word / 2, word / 4;
    var q3, q4 := word / 0x20, word / 0x8000;
    FirstField(word, 1, q1, word % 2, [1, 3, 10, 10, 20, 14, 5]);
    FirstField(q1, 1, q2, q1 % 2, [3, 10, 10, 20, 14, 5]);
    FirstField(q2, 3, q3, q2 % 8, [10, 10, 20, 14, 5]);
    FirstField(q3, 10, q4, q3 % 0x400, [10, 20, 14, 5]);
    HighFields(q4);
    assert [1] + [1, 3, 10, 10, 20, 14, 5] == [1, 1, 3, 10, 10, 20, 14, 5];
    assert [1] + [3, 10, 10, 20, 14, 5] == [1, 3, 10, 10, 20, 14, 5];
    assert [3] + [10, 10, 20, 14, 5] == [3, 10, 10, 20, 14, 5] && [10] + [10, 20, 14, 5] == [10, 10, 20, 14, 5];
  }

  predicate InRange(cell: nat, start: nat, count: nat) {
    start <= cell < start + count
  }

  predicate RangesOverlap(start: nat, count: nat, otherStart: nat, otherCount: nat) {
    start < otherStart + otherCount && otherStart < start + count
  }

  /** The interval test is exactly sharing a cell. */
  lemma OverlapMeansSharedCell(start: nat, count: nat, otherStart: nat, otherCount: nat)
    requires 0 < count && 0 < otherCount
    ensures RangesOverlap(start, count, otherStart, otherCount)
       <==> exists c: nat :: InRange(c, start, count) && InRange(c, otherStart, otherCount)
  {
    if RangesOverlap(start, count, otherStart, otherCount) {
      var c := if start < otherStart then otherStart else start;
      assert InRange(c, start, count) && InRange(c, otherStart, otherCount);
    }
  }

  predicate SampledConflict(current: SampledEntry, prior: SampledEntry) {
    && current.valid && prior.valid && !prior.consumed && current.epoch == prior.epoch
    && current.generation == prior.generation && current.owner != prior.owner
    && KindsConflict(current.kind, prior.kind)
    && RangesOverlap(current.start, current.count, prior.start, prior.count)
  }

  // ---------------------------------------------------------------- acquired tokens

  /** Whether subgroup `current` has acquired epoch `priorEpoch` of subgroup `prior`. */
  predicate OrderedBy(tokens: seq<nat>, n: nat, prior: nat, priorEpoch: nat, current: nat) {
    && current < n && prior < n && 0 <= current * n + prior < |tokens|
    && priorEpoch + 1 <= tokens[current * n + prior]
  }

  /** The token check of both backends, on a matrix that is absent (empty) or n by n. */
  method AcquiredPriorEpoch(tokens: array<nat>, n: nat, prior: nat, priorEpoch: nat, current: nat)
      returns (acquired: bool)
    requires tokens.Length == 0 || tokens.Length == n * n
    ensures acquired == OrderedBy(tokens[..], n, prior, priorEpoch, current)
  {
    if tokens.Length == 0 || n == 0 {
      return false;
    }
    if current >= n || prior >= n {
      return false;
    }
    RowColumn(n, current, prior);
    var token := tokens[current * n + prior];
    return token >= priorEpoch + 1;
  }
}
