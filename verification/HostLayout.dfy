/** How the host cuts one allocation into the device's metadata tables. Offsets count bytes from the
    start of the allocation; the sums stay far below 2^64, so they are unbounded here. */
module HostLayout {
  import opened Arith
  import ProbeScan

  const MAX_AUTO_BYTES: nat := 256 * 1024

  const DIAGNOSTIC_BYTES: nat := 64
  const RECORD_BYTES: nat := 32
  const CACHE_BYTES: nat := 24
  const WORD_BYTES: nat := 8

  datatype Backend = ExactShadow | SampledWatchpoint

  /** Capacities of -1 are derived from the byte budget. */
  datatype Options = Options(storageBytes: nat, exact: int, sampled: int, diagnostics: int, subgroups: int,
                             backend: Backend)

  datatype Capacities = Capacities(diagnostics: int, subgroups: nat, atomicObjects: nat, exact: int, sampled: int)

  datatype Failure =
    | InvalidOptions
    | TooLargeForInt
    | StorageTooSmall(required: nat)
    | EmptyBackendTable

  datatype Outcome = Fitted | Failed(failure: Failure)

  /** A table: its offset (none if its capacity is not positive), entries, entry size and alignment. */
  datatype Slice = Slice(offset: nat, entries: nat, size: nat, align: nat) | NullSlice

  function AlignUp(offset: nat, alignment: nat): (r: nat)
    requires 0 < alignment
  {
    var remainder := offset % alignment;
    if remainder == 0 then offset else offset + (alignment - remainder)
  }

  /** The least multiple of the alignment that is not below the offset. */
  lemma AlignUpLeast(offset: nat, alignment: nat, other: nat)
    requires alignment == 4 || alignment == 8
    ensures offset <= AlignUp(offset, alignment) && AlignUp(offset, alignment) % alignment == 0
    ensures offset <= other && other % alignment == 0 ==> AlignUp(offset, alignment) <= other
  {
    if alignment == 4 { } else { }
  }

  function SliceEnd(offset: nat, capacity: int, size: nat, align: nat): nat
    requires 0 < align
  {
    if capacity <= 0 then offset else AlignUp(offset, align) + capacity * size
  }

  function SliceAt(offset: nat, capacity: int, size: nat, align: nat): Slice
    requires 0 < align
  {
    if capacity <= 0 then NullSlice else Slice(AlignUp(offset, align), capacity, size, align)
  }

  function TokenCount(c: Capacities): nat { c.subgroups * c.subgroups }

  /** Offsets after each table, as both passes lay them out (the two counters are one entry each). */
  function AfterDiagnostics(c: Capacities): nat { SliceEnd(0, c.diagnostics, DIAGNOSTIC_BYTES, 8) }

  function AfterSubgroups(c: Capacities): nat { SliceEnd(AfterDiagnostics(c), c.subgroups, 4, 4) }

  function AfterDiagnosticCount(c: Capacities): nat { SliceEnd(AfterSubgroups(c), 1, 4, 4) }

  function AfterArrivalCount(c: Capacities): nat { SliceEnd(AfterDiagnosticCount(c), 1, 4, 4) }

  function AfterRecords(c: Capacities): nat { SliceEnd(AfterArrivalCount(c), c.atomicObjects, RECORD_BYTES, 8) }

  function AfterCache(c: Capacities): nat { SliceEnd(AfterRecords(c), c.atomicObjects, CACHE_BYTES, 8) }

  function AfterTokens(c: Capacities): nat { SliceEnd(AfterCache(c), TokenCount(c), 4, 4) }

  function AfterExact(c: Capacities): nat { SliceEnd(AfterTokens(c), c.exact, WORD_BYTES, 8) }

  function LayoutBytes(c: Capacities): nat { SliceEnd(AfterExact(c), c.sampled, WORD_BYTES, 8) }

  /** The tables in order: diagnostics, subgroup states, diagnostic count, arrival count, atomic objects,
      address cache, tokens, exact shadow, sampled watchpoints. */
  function Slices(c: Capacities): (r: seq<Slice>)
    ensures |r| == 9
  {
    [SliceAt(0, c.diagnostics, DIAGNOSTIC_BYTES, 8),
     SliceAt(AfterDiagnostics(c), c.subgroups, 4, 4),
     SliceAt(AfterSubgroups(c), 1, 4, 4),
     SliceAt(AfterDiagnosticCount(c), 1, 4, 4),
     SliceAt(AfterArrivalCount(c), c.atomicObjects, RECORD_BYTES, 8),
     SliceAt(AfterRecords(c), c.atomicObjects, CACHE_BYTES, 8),
     SliceAt(AfterCache(c), TokenCount(c), 4, 4),
     SliceAt(AfterTokens(c), c.exact, WORD_BYTES, 8),
     SliceAt(AfterExact(c), c.sampled, WORD_BYTES, 8)]
  }

  ghost predicate Holds(s: Slice, capacity: int, size: nat, align: nat) {
    if capacity <= 0 then s.NullSlice? else s.Slice? && s.entries == capacity && s.size == size && s.align == align
  }

  /** Every table with a positive capacity is there, with that many entries of its own size and alignment, and no
      other is: diagnostics, subgroup states, the two counters, atomic objects and as many cache lines, one token
      for every pair of subgroups, exact shadow words, sampled words. */
  lemma TablesHoldTheirCapacities(c: Capacities)
    ensures Holds(Slices(c)[0], c.diagnostics, 64, 8) && Holds(Slices(c)[1], c.subgroups, 4, 4)
    ensures Holds(Slices(c)[2], 1, 4, 4) && Holds(Slices(c)[3], 1, 4, 4)
    ensures Holds(Slices(c)[4], c.atomicObjects, 32, 8) && Holds(Slices(c)[5], c.atomicObjects, 24, 8)
    ensures Holds(Slices(c)[6], c.subgroups * c.subgroups, 4, 4)
    ensures Holds(Slices(c)[7], c.exact, 8, 8) && Holds(Slices(c)[8], c.sampled, 8, 8)
  {
    hide AlignUp, AfterDiagnostics, AfterSubgroups, AfterDiagnosticCount, AfterArrivalCount, AfterRecords, AfterCache,
         AfterTokens, AfterExact;
  }

  const RECORDS: nat := 4
  const CACHE: nat := 5

  // ---------------------------------------------------------------- what the layout guarantees

  /** Consecutive tables from one offset to another: aligned, in order, without overlap. */
  ghost predicate Chained(slices: seq<Slice>, from: nat, to: nat)
    decreases |slices|
  {
    if slices == [] then from <= to
    else
      var s := slices[0];
      if s.NullSlice? then Chained(slices[1..], from, to)
      else
        && from <= s.offset && 0 < s.align && s.offset % s.align == 0
        && Chained(slices[1..], s.offset + s.entries * s.size, to)
  }

  lemma Link(offset: nat, capacity: int, size: nat, align: nat, rest: seq<Slice>, to: nat)
    requires (align == 4 || align == 8) && Chained(rest, SliceEnd(offset, capacity, size, align), to)
    ensures Chained([SliceAt(offset, capacity, size, align)] + rest, offset, to)
  {
    AlignUpLeast(offset, align, 0);
    assert ([SliceAt(offset, capacity, size, align)] + rest)[1..] == rest;
  }

  /** The whole layout is one chain. */
  lemma SlicesChained(c: Capacities)
    ensures Chained(Slices(c), 0, LayoutBytes(c))
  {
    hide AfterDiagnostics, AfterSubgroups, AfterDiagnosticCount, AfterArrivalCount, AfterRecords, AfterCache,
         AfterTokens, AfterExact, LayoutBytes, SliceAt, SliceEnd;
    var to, s := LayoutBytes(c), Slices(c);
    ChainTail(c);
    ChainHead(c, s[4..], to);
    assert Slices(c) == s[..4] + s[4..];
  }

  lemma ChainTail(c: Capacities)
    ensures Chained(Slices(c)[4..], AfterArrivalCount(c), LayoutBytes(c))
  {
    hide SliceAt, SliceEnd;
    var to := LayoutBytes(c);
    var s8 := [SliceAt(AfterExact(c), c.sampled, WORD_BYTES, 8)];
    var s7 := [SliceAt(AfterTokens(c), c.exact, WORD_BYTES, 8)] + s8;
    var s6 := [SliceAt(AfterCache(c), TokenCount(c), 4, 4)] + s7;
    var s5 := [SliceAt(AfterRecords(c), c.atomicObjects, CACHE_BYTES, 8)] + s6;
    var s4 := [SliceAt(AfterArrivalCount(c), c.atomicObjects, RECORD_BYTES, 8)] + s5;
    Link(AfterExact(c), c.sampled, WORD_BYTES, 8, [], to);
    assert s8 == s8 + [];
    Link(AfterTokens(c), c.exact, WORD_BYTES, 8, s8, to);
    Link(AfterCache(c), TokenCount(c), 4, 4, s7, to);
    Link(AfterRecords(c), c.atomicObjects, CACHE_BYTES, 8, s6, to);
    Link(AfterArrivalCount(c), c.atomicObjects, RECORD_BYTES, 8, s5, to);
    assert Slices(c)[4..] == s4;
  }

  lemma ChainHead(c: Capacities, tail: seq<Slice>, to: nat)
    requires Chained(tail, AfterArrivalCount(c), to)
    ensures Chained(Slices(c)[..4] + tail, 0, to)
  {
    hide SliceAt, SliceEnd;
    var s3 := [SliceAt(AfterDiagnosticCount(c), 1, 4, 4)] + tail;
    var s2 := [SliceAt(AfterSubgroups(c), 1, 4, 4)] + s3;
    var s1 := [SliceAt(AfterDiagnostics(c), c.subgroups, 4, 4)] + s2;
    var s0 := [SliceAt(0, c.diagnostics, DIAGNOSTIC_BYTES, 8)] + s1;
    Link(AfterDiagnosticCount(c), 1, 4, 4, tail, to);
    Link(AfterSubgroups(c), 1, 4, 4, s3, to);
    Link(AfterDiagnostics(c), c.subgroups, 4, 4, s2, to);
    Link(0, c.diagnostics, DIAGNOSTIC_BYTES, 8, s1, to);
    assert Slices(c)[..4] + tail == s0;
  }

  ghost predicate Within(s: Slice, from: nat, to: nat) {
    s.Slice? ==> from <= s.offset && s.offset + s.entries * s.size <= to && 0 < s.align && s.offset % s.align == 0
  }

  ghost predicate Before(a: Slice, b: Slice) {
    a.Slice? && b.Slice? ==> a.offset + a.entries * a.size <= b.offset
  }

  /** A chain is aligned, inside its bounds, and pairwise disjoint. */
  lemma {:induction false} ChainedApart(slices: seq<Slice>, from: nat, to: nat)
    requires Chained(slices, from, to)
    ensures from <= to
    ensures forall i :: 0 <= i < |slices| ==> Within(slices[i], from, to)
    ensures forall i, j :: 0 <= i < j < |slices| ==> Before(slices[i], slices[j])
    decreases |slices|
  {
    if slices != [] {
      var s, rest := slices[0], slices[1..];
      var next := if s.NullSlice? then from else s.offset + s.entries * s.size;
      ChainedApart(rest, next, to);
      forall i | 0 <= i < |slices| ensures Within(slices[i], from, to) {
        if 0 < i { assert Within(rest[i - 1], next, to); }
      }
      forall i, j | 0 <= i < j < |slices| ensures Before(slices[i], slices[j]) {
        assert Within(rest[j - 1], next, to);
        if 0 < i { assert Before(rest[i - 1], rest[j - 1]); }
      }
    }
  }

  /** The device finds the address cache right behind the atomic objects: no padding ever separates them. */
  lemma CacheFollowsRecords(c: Capacities)
    requires 0 < c.atomicObjects
    ensures var records, cache := Slices(c)[RECORDS], Slices(c)[CACHE];
            records.Slice? && cache.Slice? && cache.offset == records.offset + c.atomicObjects * RECORD_BYTES
  {
    hide AfterArrivalCount, AlignUp;
    var records := AlignUp(AfterArrivalCount(c), 8);
    AlignUpLeast(AfterArrivalCount(c), 8, 0);
    AlignedStays(records, 4 * c.atomicObjects);
    assert AfterRecords(c) == records + 4 * c.atomicObjects * 8;
  }

  /** Whole multiples of 8 keep an offset aligned. */
  lemma AlignedStays(offset: nat, k: nat)
    requires offset % 8 == 0
    ensures AlignUp(offset + k * 8, 8) == offset + k * 8
  {
    Shift(offset, k, 8);
  }

  /** All tables are aligned, disjoint and inside the bytes that the sizing pass counts, and the cache is
      where the device looks for it. */
  lemma LayoutIsSound(c: Capacities)
    requires 0 < c.atomicObjects
    ensures forall i :: 0 <= i < 9 ==> Within(Slices(c)[i], 0, LayoutBytes(c))
    ensures forall i, j :: 0 <= i < j < 9 ==> Before(Slices(c)[i], Slices(c)[j])
    ensures Slices(c)[CACHE].Slice? && Slices(c)[RECORDS].Slice?
    ensures Slices(c)[CACHE].offset == Slices(c)[RECORDS].offset + c.atomicObjects * RECORD_BYTES
  {
    hide Slices, LayoutBytes, Within, Before;
    SlicesChained(c);
    ChainedApart(Slices(c), 0, LayoutBytes(c));
    CacheFollowsRecords(c);
  }

  // ---------------------------------------------------------------- automatic sizes

  /** The capacity that the device tables derive from a 64th of the budget. */
  function BudgetEntries(storageBytes: nat, entryBytes: nat): (r: nat)
    requires 0 < entryBytes
  {
    var bytes := storageBytes / 64;
    var atLeast := if bytes < entryBytes then entryBytes else bytes;
    var capped := if atLeast > MAX_AUTO_BYTES then MAX_AUTO_BYTES else atLeast;
    if capped / entryBytes == 0 then 1 else capped / entryBytes
  }

  /** The most entries of a size that a 64th of the budget and 256 KiB hold, but at least one. */
  ghost predicate Share(storageBytes: nat, size: nat, n: nat) {
    && 1 <= n && (n == 1 || (n * size * 64 <= storageBytes && n * size <= 0x4_0000))
    && (storageBytes < (n + 1) * size * 64 || 0x4_0000 < (n + 1) * size)
  }

  lemma BudgetIsShare(storageBytes: nat)
    ensures Share(storageBytes, 64, BudgetEntries(storageBytes, DIAGNOSTIC_BYTES))
    ensures Share(storageBytes, 32, BudgetEntries(storageBytes, RECORD_BYTES))
  {
  }

  /** Doubling from r until the value is reached. */
  function DoubleUntil(r: nat, value: nat): (p: nat)
    requires 0 < r
    ensures value <= p && r <= p
    decreases value - r
  {
    if r < value then DoubleUntil(2 * r, value) else r
  }

  method CeilPowerOfTwo(value: nat) returns (result: nat)
    ensures result == DoubleUntil(1, value)
  {
    result := 1;
    while result < value
      invariant 0 < result && DoubleUntil(result, value) == DoubleUntil(1, value)
      decreases value - result
    {
      result := result * 2;
    }
  }

  /** Doubling finds the least power of two that is not below the value. */
  lemma {:induction false} DoublingIsLeast(r: nat, value: nat, p: nat)
    requires PowerOfTwo(r) && PowerOfTwo(p) && value <= p && r <= p
    ensures PowerOfTwo(DoubleUntil(r, value)) && DoubleUntil(r, value) <= p
    decreases value - r
  {
    if r < value {
      assert 2 * r / 2 == r;
      NoPowerBetween(r, p);
      DoublingIsLeast(2 * r, value, p);
    }
  }

  /** Powers of two are at least a factor of two apart. */
  lemma {:induction false} NoPowerBetween(p: nat, q: nat)
    requires PowerOfTwo(p) && PowerOfTwo(q) && p < q
    ensures p <= q / 2
  {
    if 1 < p { NoPowerBetween(p / 2, q / 2); }
  }

  predicate Auto(capacity: int) { capacity < 0 }

  predicate ValidOptions(o: Options) {
    && 0 < o.storageBytes && -1 <= o.exact && -1 <= o.sampled && -1 <= o.diagnostics && 0 < o.subgroups
    && o.diagnostics != 0
  }

  /** The capacities before the backend's table is sized. */
  function FixedCapacities(o: Options, atomicObjects: nat): Capacities
    requires ValidOptions(o)
  {
    Capacities(if Auto(o.diagnostics) then BudgetEntries(o.storageBytes, DIAGNOSTIC_BYTES) else o.diagnostics,
               o.subgroups, atomicObjects,
               if Auto(o.exact) then 0 else o.exact, if Auto(o.sampled) then 0 else o.sampled)
  }

  predicate BackendIsAuto(o: Options) {
    if o.backend.SampledWatchpoint? then Auto(o.sampled) else Auto(o.exact)
  }

  function BackendTable(o: Options, c: Capacities): int {
    if o.backend.SampledWatchpoint? then c.sampled else c.exact
  }

  function WithBackendTable(o: Options, c: Capacities, n: nat): Capacities {
    if o.backend.SampledWatchpoint? then c.(sampled := n) else c.(exact := n)
  }

  function AtomicObjects(o: Options): (n: nat)
    ensures 1 <= n
  {
    DoubleUntil(1, BudgetEntries(o.storageBytes, RECORD_BYTES))
  }

  /** Neither derived capacity can exceed an int: the automatic sizes never abort. */
  lemma DerivedCapacitiesFit(o: Options)
    ensures 1 <= BudgetEntries(o.storageBytes, DIAGNOSTIC_BYTES) <= 4096
    ensures PowerOfTwo(AtomicObjects(o)) && AtomicObjects(o) <= 8192
  {
    hide BudgetEntries, PowerOfTwo;
    BudgetBounds(o.storageBytes);
    MaxRecordsIsPower();
    DoublingIsLeast(1, BudgetEntries(o.storageBytes, RECORD_BYTES), 8192);
  }

  /** As many atomic objects as the least power of two that is not below their share. */
  ghost predicate AtomicShare(storageBytes: nat, n: nat) {
    PowerOfTwo(n) && exists k: nat :: Share(storageBytes, 32, k) && k <= n < 2 * k
  }

  lemma AtomicObjectsAreShare(o: Options)
    ensures AtomicShare(o.storageBytes, AtomicObjects(o))
  {
    hide BudgetEntries, PowerOfTwo, Share;
    var k := BudgetEntries(o.storageBytes, RECORD_BYTES);
    DerivedCapacitiesFit(o);
    BudgetIsShare(o.storageBytes);
    BudgetBounds(o.storageBytes);
    MaxRecordsIsPower();
    DoublingBelowTwice(1, k);
  }

  /** Doubling stops as soon as it can. */
  lemma {:induction false} DoublingBelowTwice(r: nat, value: nat)
    requires 0 < r && (r < value || r < 2 * value)
    ensures DoubleUntil(r, value) < 2 * value
    decreases value - r
  {
    if r < value { DoublingBelowTwice(2 * r, value); }
  }

  lemma BudgetBounds(storageBytes: nat)
    ensures 1 <= BudgetEntries(storageBytes, DIAGNOSTIC_BYTES) <= 4096
    ensures 1 <= BudgetEntries(storageBytes, RECORD_BYTES) <= 8192
  {
  }

  lemma MaxRecordsIsPower()
    ensures PowerOfTwo(1) && PowerOfTwo(8192)
  {
    assert PowerOfTwo(8);
    assert PowerOfTwo(64);
    assert PowerOfTwo(512);
  }

  function Fixed(o: Options): Capacities
    requires ValidOptions(o)
  {
    FixedCapacities(o, AtomicObjects(o))
  }

  /** The padding that the backend's first automatic entry brings. */
  function Padding(o: Options, c: Capacities): nat {
    if o.backend.SampledWatchpoint? then AlignUp(AfterExact(c), 8) - AfterExact(c)
    else if 0 < c.sampled then 0 else AlignUp(AfterTokens(c), 8) - AfterTokens(c)
  }

  lemma TokensEndAligned(c: Capacities)
    requires 0 < c.subgroups
    ensures AfterTokens(c) % 4 == 0
  {
    hide AfterCache, AlignUp;
    AlignUpLeast(AfterCache(c), 4, 0);
    Squares(c.subgroups);
    Shift(AlignUp(AfterCache(c), 4), TokenCount(c), 4);
  }

  lemma Squares(n: nat)
    requires 0 < n
    ensures 0 < n * n
  {
  }

  lemma TokensUnmoved(c: Capacities, exact: int, sampled: int)
    ensures AfterTokens(c.(exact := exact, sampled := sampled)) == AfterTokens(c)
  {
    hide SliceEnd;
  }

  /** The backend's automatic table of n entries costs 8n bytes and at most 4 bytes of padding, once. */
  lemma TableGrowth(o: Options, n: nat)
    requires ValidOptions(o) && BackendIsAuto(o)
    ensures var fixed := Fixed(o);
            && Padding(o, fixed) <= 4
            && LayoutBytes(WithBackendTable(o, fixed, n))
               == LayoutBytes(fixed) + if n == 0 then 0 else Padding(o, fixed) + WORD_BYTES * n
  {
    hide AfterTokens, BudgetEntries, DoubleUntil;
    var fixed := Fixed(o);
    TokensEndAligned(fixed);
    if o.backend.SampledWatchpoint? {
      TokensUnmoved(fixed, fixed.exact, n);
    } else {
      TokensUnmoved(fixed, n, fixed.sampled);
    }
    Realign(AfterTokens(fixed), fixed.exact, n);
    Realign(AfterTokens(fixed), n, fixed.sampled);
  }

  lemma Realign(t: nat, first: int, second: int)
    requires t % 4 == 0
    ensures AlignUp(t, 8) <= t + 4
    ensures 0 < first ==> AlignUp(AlignUp(t, 8) + first * WORD_BYTES, 8) == AlignUp(t, 8) + first * WORD_BYTES
  {
    AlignUpLeast(t, 8, 0);
    if 0 < first { AlignedStays(AlignUp(t, 8), first); }
  }

  /** What a successful sizing grants: the given capacities, their shares of the budget to the derived ones,
      what is left to the automatic table of the backend (one entry more would not fit), nothing to the other. */
  ghost predicate Granted(o: Options, c: Capacities) {
    && LayoutBytes(c) <= o.storageBytes && c.subgroups == o.subgroups && AtomicShare(o.storageBytes, c.atomicObjects)
    && (if o.diagnostics == -1 then 0 < c.diagnostics && Share(o.storageBytes, 64, c.diagnostics)
        else c.diagnostics == o.diagnostics)
    && (if o.exact != -1 then c.exact == o.exact
        else if o.backend == SampledWatchpoint then c.exact == 0
        else o.storageBytes < LayoutBytes(c.(exact := c.exact + 1)))
    && (if o.sampled != -1 then c.sampled == o.sampled
        else if o.backend == ExactShadow then c.sampled == 0
        else o.storageBytes < LayoutBytes(c.(sampled := c.sampled + 1)))
    && 0 < if o.backend == SampledWatchpoint then c.sampled else c.exact
  }

  lemma GrantedBySizes(o: Options, c: Capacities)
    requires ValidOptions(o) && LayoutBytes(c) <= o.storageBytes && 0 < BackendTable(o, c)
    requires c == WithBackendTable(o, Fixed(o), BackendTable(o, c))
    requires BackendIsAuto(o) ==> o.storageBytes < LayoutBytes(WithBackendTable(o, Fixed(o), BackendTable(o, c) + 1))
    requires !BackendIsAuto(o) ==> c == Fixed(o)
    ensures Granted(o, c)
  {
    hide LayoutBytes, Fixed, AtomicShare, Share;
    FixedMeans(o);
  }

  // ---------------------------------------------------------------- the host context

  class HostContext {
    const options: Options
    var diagnosticCapacity: int
    var subgroupCapacity: nat
    var atomicObjectCapacity: nat
    var exactCapacity: int
    var sampledCapacity: int
    var layoutBytes: nat
    var slices: seq<Slice>

    constructor (options: Options)
      ensures this.options == options
    {
      this.options := options;
    }

    ghost function Caps(): Capacities
      reads this
    {
      Capacities(diagnosticCapacity, subgroupCapacity, atomicObjectCapacity, exactCapacity, sampledCapacity)
    }

    /** The sizing pass: appends the two counters as one table of two ints. */
    method LayoutByteCount() returns (bytes: nat)
      ensures bytes == LayoutBytes(Caps())
    {
      bytes := SliceEnd(0, diagnosticCapacity, DIAGNOSTIC_BYTES, 8);
      bytes := SliceEnd(bytes, subgroupCapacity, 4, 4);
      TwoCounters(bytes);
      bytes := SliceEnd(bytes, 2, 4, 4);
      bytes := SliceEnd(bytes, atomicObjectCapacity, RECORD_BYTES, 8);
      bytes := SliceEnd(bytes, atomicObjectCapacity, CACHE_BYTES, 8);
      bytes := SliceEnd(bytes, subgroupCapacity * subgroupCapacity, 4, 4);
      bytes := SliceEnd(bytes, exactCapacity, WORD_BYTES, 8);
      bytes := SliceEnd(bytes, sampledCapacity, WORD_BYTES, 8);
    }

    method AssignSlice(offset: nat, capacity: int, size: nat, align: nat) returns (next: nat)
      requires 0 < align
      modifies this`slices
      ensures next == SliceEnd(offset, capacity, size, align)
      ensures slices == old(slices) + [SliceAt(offset, capacity, size, align)]
    {
      if capacity <= 0 {
        slices := slices + [NullSlice];
        return offset;
      }
      next := AlignUp(offset, align);
      slices := slices + [Slice(next, capacity, size, align)];
      next := next + capacity * size;
    }

    /** The assigning pass: one address per table, the two counters apart. It ends where the sizing pass
        says. */
    method AssignLayoutSlices()
      modifies this`slices, this`layoutBytes
      ensures slices == Slices(Caps()) && layoutBytes == LayoutBytes(Caps())
    {
      hide SliceEnd, SliceAt;
      slices := [];
      var offset := AssignSlice(0, diagnosticCapacity, DIAGNOSTIC_BYTES, 8);
      offset := AssignSlice(offset, subgroupCapacity, 4, 4);
      offset := AssignSlice(offset, 1, 4, 4);
      offset := AssignSlice(offset, 1, 4, 4);
      offset := AssignSlice(offset, atomicObjectCapacity, RECORD_BYTES, 8);
      offset := AssignSlice(offset, atomicObjectCapacity, CACHE_BYTES, 8);
      offset := AssignSlice(offset, subgroupCapacity * subgroupCapacity, 4, 4);
      offset := AssignSlice(offset, exactCapacity, WORD_BYTES, 8);
      offset := AssignSlice(offset, sampledCapacity, WORD_BYTES, 8);
      layoutBytes := offset;
    }

    method ShrinkOneAutoCapacity() returns (shrunk: bool)
      modifies this`exactCapacity, this`sampledCapacity
      ensures shrunk == ((Auto(options.sampled) && 0 < old(sampledCapacity))
          || (Auto(options.exact) && 0 < old(exactCapacity)))
      ensures sampledCapacity == old(sampledCapacity)
                               - if Auto(options.sampled) && 0 < old(sampledCapacity) then 1 else 0
      ensures exactCapacity == old(exactCapacity)
                - if !(Auto(options.sampled) && 0 < old(sampledCapacity))
                     && Auto(options.exact) && 0 < old(exactCapacity) then 1 else 0
    {
      if Auto(options.sampled) && sampledCapacity > 0 {
        sampledCapacity := sampledCapacity - 1;
        return true;
      }
      if Auto(options.exact) && exactCapacity > 0 {
        exactCapacity := exactCapacity - 1;
        return true;
      }
      return false;
    }

    /** The shrink loop, from the first guess of the automatic table: at most one step, and then the
        table is as large as it can be. */
    method FitBackendTable() returns (ghost steps: nat)
      requires ValidOptions(options) && LayoutBytes(Fixed(options)) <= options.storageBytes
      requires BackendIsAuto(options) ==>
                 Caps() == WithBackendTable(options, Fixed(options),
                                            (options.storageBytes - LayoutBytes(Fixed(options))) / WORD_BYTES)
      requires !BackendIsAuto(options) ==> Caps() == Fixed(options)
      modifies this`exactCapacity, this`sampledCapacity
      ensures steps <= 1 && LayoutBytes(Caps()) <= options.storageBytes
      ensures !BackendIsAuto(options) ==> Caps() == Fixed(options)
      ensures BackendIsAuto(options) ==>
                && 0 <= BackendTable(options, Caps())
                && Caps() == WithBackendTable(options, Fixed(options), BackendTable(options, Caps()))
                && options.storageBytes
                   < LayoutBytes(WithBackendTable(options, Fixed(options), BackendTable(options, Caps()) + 1))
    {
      hide LayoutBytes, FixedCapacities, AtomicObjects;
      ghost var guess: nat := (options.storageBytes - LayoutBytes(Fixed(options))) / WORD_BYTES;
      GuessIsLargeEnough(options, guess);
      FixedTables(options);
      steps := 0;
      var bytes := LayoutByteCount();
      var again := bytes > options.storageBytes;
      if again {
        again := ShrinkOneAutoCapacity();
      }
      while again
        invariant again ==>
                    && BackendIsAuto(options) && steps < guess && Sized(guess - steps - 1)
                    && options.storageBytes < LayoutBytes(WithBackendTable(options, Fixed(options),
                                                                           (guess - steps) as nat))
        invariant !again ==> LayoutBytes(Caps()) <= options.storageBytes
        invariant !again ==>
                    if BackendIsAuto(options) then
                      && steps <= guess && Sized(guess - steps)
                      && options.storageBytes < LayoutBytes(WithBackendTable(options, Fixed(options),
                                                                             (guess - steps) as nat + 1))
                    else Caps() == Fixed(options) && steps == 0
        decreases if again then guess - steps else 0
      {
        steps := steps + 1;
        bytes := LayoutByteCount();
        again := bytes > options.storageBytes;
        if again {
          again := ShrinkOneAutoCapacity();
        }
      }
      if 0 < steps {
        OneStepSuffices(options, guess, steps);
      }
    }

    /** The backend's automatic table has n entries. */
    ghost predicate Sized(n: int)
      requires ValidOptions(options) && 0 <= n
      reads this
    {
      Caps() == WithBackendTable(options, Fixed(options), n)
    }

    /** The capacities that do not depend on what remains. */
    method SetFixedCapacities()
      requires ValidOptions(options)
      modifies this
      ensures Caps() == Fixed(options) && PowerOfTwo(atomicObjectCapacity)
    {
      DerivedCapacitiesFit(options);
      subgroupCapacity := options.subgroups;
      atomicObjectCapacity := CeilPowerOfTwo(BudgetEntries(options.storageBytes, RECORD_BYTES));
      diagnosticCapacity := if Auto(options.diagnostics) then BudgetEntries(options.storageBytes, DIAGNOSTIC_BYTES)
                            else options.diagnostics;
      exactCapacity := if Auto(options.exact) then 0 else options.exact;
      sampledCapacity := if Auto(options.sampled) then 0 else options.sampled;
    }

    /** Gives the remaining bytes to the backend's table, if that is automatic. */
    method GuessBackendTable(remaining: nat) returns (fits: bool)
      modifies this`exactCapacity, this`sampledCapacity
      ensures fits == !(BackendIsAuto(options) && INT_MAX < remaining / WORD_BYTES)
      ensures fits ==>
                Caps() == if BackendIsAuto(options) then WithBackendTable(options, old(Caps()), remaining / WORD_BYTES)
                                 else old(Caps())
    {
      fits := true;
      if options.backend.SampledWatchpoint? {
        if Auto(options.sampled) {
          if remaining / WORD_BYTES > INT_MAX {
            return false;
          }
          sampledCapacity := remaining / WORD_BYTES;
        }
      } else if Auto(options.exact) {
        if remaining / WORD_BYTES > INT_MAX {
          return false;
        }
        exactCapacity := remaining / WORD_BYTES;
      }
    }

    /** Sizes every table. It fails exactly for invalid options, a count beyond int, a fixed part that does
        not fit, or an empty backend table; else every given capacity is kept, the derived ones are their share
        of the budget, the tables fit the budget, and the backend's automatic table is the largest that does. */
    method ComputeLayout() returns (outcome: Outcome)
      modifies this
      ensures outcome == Failed(InvalidOptions)
         <==> || options.storageBytes == 0 || options.exact < -1 || options.sampled < -1 || options.diagnostics < -1
              || options.subgroups <= 0 || options.diagnostics == 0
      ensures outcome == Fitted ==>
                layoutBytes == LayoutBytes(Caps()) && Granted(options, Caps())
      ensures outcome.Failed? && outcome.failure.StorageTooSmall? ==>
                && ValidOptions(options) && outcome.failure.required == LayoutBytes(Fixed(options))
                && options.storageBytes < LayoutBytes(Fixed(options))
      ensures outcome == Failed(TooLargeForInt) ==>
                && ValidOptions(options)
                && (INT_MAX < options.subgroups * options.subgroups
                    || (BackendIsAuto(options) && LayoutBytes(Fixed(options)) <= options.storageBytes
                        && INT_MAX < (options.storageBytes - LayoutBytes(Fixed(options))) / WORD_BYTES))
      ensures ValidOptions(options) && INT_MAX < options.subgroups * options.subgroups ==>
          outcome == Failed(TooLargeForInt)
      ensures outcome.Fitted? && BackendIsAuto(options) ==>
                && LayoutBytes(Fixed(options)) <= options.storageBytes
                && (options.storageBytes - LayoutBytes(Fixed(options))) / WORD_BYTES <= INT_MAX
      ensures outcome == Failed(EmptyBackendTable) ==>
                && ValidOptions(options) && LayoutBytes(Fixed(options)) <= options.storageBytes
                && (if BackendIsAuto(options)
                    then options.storageBytes < LayoutBytes(WithBackendTable(options, Fixed(options), 1))
                    else BackendTable(options, Fixed(options)) == 0)
      ensures outcome == Fitted ==>
                && ValidOptions(options) && layoutBytes == LayoutBytes(Caps()) <= options.storageBytes
                && 0 < BackendTable(options, Caps()) && PowerOfTwo(atomicObjectCapacity)
                && Caps() == WithBackendTable(options, Fixed(options), BackendTable(options, Caps()))
                && (BackendIsAuto(options) ==>
                      options.storageBytes
                      < LayoutBytes(WithBackendTable(options, Fixed(options), BackendTable(options, Caps()) + 1)))
    {
      hide LayoutBytes, BudgetEntries, FixedCapacities, AtomicObjects, PowerOfTwo, Granted;
      if !ValidOptions(options) {
        return Failed(InvalidOptions);
      }
      SetFixedCapacities();
      FixedTables(options);
      if subgroupCapacity * subgroupCapacity > INT_MAX {
        return Failed(TooLargeForInt);
      }
      var fixedBytes := LayoutByteCount();
      if fixedBytes > options.storageBytes {
        return Failed(StorageTooSmall(fixedBytes));
      }
      var guessed := GuessBackendTable(options.storageBytes - fixedBytes);
      if !guessed {
        return Failed(TooLargeForInt);
      }
      ghost var steps := FitBackendTable();
      layoutBytes := LayoutByteCount();
      if layoutBytes > options.storageBytes {
        return Failed(StorageTooSmall(layoutBytes));
      }
      if options.backend.SampledWatchpoint? && sampledCapacity <= 0 {
        return Failed(EmptyBackendTable);
      }
      if options.backend.ExactShadow? && exactCapacity <= 0 {
        return Failed(EmptyBackendTable);
      }
      GrantedBySizes(options, Caps());
      return Fitted;
    }
  }

  lemma TwoCounters(offset: nat)
    ensures SliceEnd(offset, 2, 4, 4) == SliceEnd(SliceEnd(offset, 1, 4, 4), 1, 4, 4)
  {
    AlignUpLeast(offset, 4, 0);
  }

  /** The first guess, the remaining bytes divided by 8, is never too small. */
  lemma GuessIsLargeEnough(o: Options, guess: nat)
    requires ValidOptions(o) && LayoutBytes(Fixed(o)) <= o.storageBytes
    requires guess == (o.storageBytes - LayoutBytes(Fixed(o))) / WORD_BYTES
    ensures BackendIsAuto(o) ==>
              && o.storageBytes < LayoutBytes(WithBackendTable(o, Fixed(o), guess + 1))
              && LayoutBytes(WithBackendTable(o, Fixed(o), 0)) <= o.storageBytes
  {
    hide LayoutBytes, Fixed, Padding;
    if BackendIsAuto(o) {
      TableGrowth(o, guess + 1);
      TableGrowth(o, 0);
    }
  }

  /** It is at most one entry too large: a second step would have shrunk a table that fits. */
  lemma OneStepSuffices(o: Options, guess: nat, steps: nat)
    requires ValidOptions(o) && BackendIsAuto(o) && LayoutBytes(Fixed(o)) <= o.storageBytes
    requires guess == (o.storageBytes - LayoutBytes(Fixed(o))) / WORD_BYTES
    requires 0 < steps <= guess && o.storageBytes < LayoutBytes(WithBackendTable(o, Fixed(o), guess - steps + 1))
    ensures steps == 1
  {
    hide LayoutBytes, Fixed, Padding;
    TableGrowth(o, guess - steps + 1);
  }

  /** What the automatic tables are before sizing. */
  lemma FixedTables(o: Options)
    requires ValidOptions(o)
    ensures Auto(o.exact) ==> Fixed(o).exact == 0
    ensures Auto(o.sampled) ==> Fixed(o).sampled == 0
    ensures BackendIsAuto(o) ==> WithBackendTable(o, Fixed(o), 0) == Fixed(o)
    ensures Fixed(o).subgroups == o.subgroups && 0 <= Fixed(o).exact && 0 <= Fixed(o).sampled
  {
  }

  /** What the capacities are before the backend's table is sized. */
  lemma FixedMeans(o: Options)
    requires ValidOptions(o)
    ensures Fixed(o).subgroups == o.subgroups && AtomicShare(o.storageBytes, Fixed(o).atomicObjects)
    ensures if o.diagnostics == -1 then 0 < Fixed(o).diagnostics && Share(o.storageBytes, 64, Fixed(o).diagnostics)
            else Fixed(o).diagnostics == o.diagnostics
    ensures Fixed(o).exact == (if o.exact == -1 then 0 else o.exact)
    ensures Fixed(o).sampled == (if o.sampled == -1 then 0 else o.sampled)
  {
    hide BudgetEntries, AtomicObjects, AtomicShare, Share;
    AtomicObjectsAreShare(o);
    BudgetIsShare(o.storageBytes);
    BudgetBounds(o.storageBytes);
  }

  // ---------------------------------------------------------------- the default table and its scans

  /** The options for sampled reporting with every size left to the host: 16 MiB, 64 subgroups. */
  function DefaultSampled(): Options { Options(16 * 1024 * 1024, 0, -1, -1, 64, SampledWatchpoint) }

  const DEFAULT_ENTRIES: nat := 2004959

  lemma DefaultFixedBytes()
    ensures LayoutBytes(Fixed(DefaultSampled())) == 737544 && Padding(DefaultSampled(), Fixed(DefaultSampled())) == 0
  {
    var c := Fixed(DefaultSampled());
    assert c.diagnostics == 4096;
    assert AtomicObjects(DefaultSampled()) == 8192 by { DefaultRecords(); }
    assert AfterDiagnostics(c) == 262144;
    assert AfterArrivalCount(c) == 262408;
    assert AfterCache(c) == 721160;
    assert AfterTokens(c) == 737544;
  }

  lemma DefaultRecords()
    ensures AtomicObjects(DefaultSampled()) == 8192
  {
    assert BudgetEntries(16 * 1024 * 1024, RECORD_BYTES) == 8192;
    assert DoubleUntil(1, 8192) == DoubleUntil(16, 8192) == DoubleUntil(256, 8192) == DoubleUntil(4096, 8192) == 8192;
  }

  /** The host sizes its own sampled table to a capacity that is no power of two, so a configured probe
      count of 0 does not scan the whole of it for every seed. */
  lemma DefaultTableIsNotAlwaysScanned() returns (mixed: nat)
    ensures LayoutBytes(WithBackendTable(DefaultSampled(), Fixed(DefaultSampled()), DEFAULT_ENTRIES))
            <= DefaultSampled().storageBytes
            < LayoutBytes(WithBackendTable(DefaultSampled(), Fixed(DefaultSampled()), DEFAULT_ENTRIES + 1))
    ensures mixed < TWO32
    ensures !ProbeScan.CoversTable(
               ProbeScan.Probed(0, ProbeScan.ProbeStep(mixed, DEFAULT_ENTRIES), DEFAULT_ENTRIES,
                                ProbeScan.ProbeCount(0, DEFAULT_ENTRIES)), DEFAULT_ENTRIES)
  {
    hide LayoutBytes, Fixed, Padding;
    DefaultFixedBytes();
    TableGrowth(DefaultSampled(), DEFAULT_ENTRIES);
    TableGrowth(DefaultSampled(), DEFAULT_ENTRIES + 1);
    mixed := ProbeScan.OddPart(DEFAULT_ENTRIES);
    ProbeScan.OtherScansMiss(DEFAULT_ENTRIES);
  }
}
