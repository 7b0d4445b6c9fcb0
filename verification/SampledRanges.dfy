/** Sampled watchpoints, publishing side: how a byte range becomes a sequence of packed cell ranges, by
    the loop and by the path specialised on a compile-time size. */
module SampledRanges {
  import opened Arith
  import opened ShadowWords

  const GRANULE: nat := 4
  const TABLE_BYTES: nat := (MAX_START + 1) * GRANULE

  datatype Range = Range(start: nat, count: nat)

  function StartCell(offset: nat): nat { offset / GRANULE }

  function EndCell(offset: nat, bytes: nat): nat
    requires 0 < bytes
  {
    (offset + bytes - 1) / GRANULE + 1
  }

  /** The range test of the publishing methods. */
  predicate Accepted(offset: nat, bytes: nat) {
    0 < bytes && StartCell(offset) <= MAX_START && EndCell(offset, bytes) <= MAX_START + 1
  }

  /** Chunks of at most 32 cells, from the front. */
  function Chunks(start: nat, end: nat): (r: seq<Range>)
    requires start <= end
    decreases end - start
  {
    if start == end then []
    else
      var chunk := if end - start > MAX_COUNT then MAX_COUNT else end - start;
      [Range(start, chunk)] + Chunks(start + chunk, end)
  }

  /** Moving the first remaining chunk behind the ones already taken. */
  lemma NextChunk(done: seq<Range>, first: nat, start: nat, end: nat)
    requires first <= end && start < end && done + Chunks(start, end) == Chunks(first, end)
    ensures var chunk := if end - start > MAX_COUNT then MAX_COUNT else end - start;
            done + [Range(start, chunk)] + Chunks(start + chunk, end) == Chunks(first, end)
  {
  }

  function RangesOf(offset: nat, bytes: nat): seq<Range> {
    if Accepted(offset, bytes) then Chunks(StartCell(offset), EndCell(offset, bytes)) else []
  }

  // ---------------------------------------------------------------- what the chunks are

  /** The ranges follow each other without gap or overlap, from `start` to `end`, each fitting the encoding. */
  predicate Tiles(ranges: seq<Range>, start: nat, end: nat) {
    if ranges == [] then start == end
    else
      && ranges[0].start == start && 1 <= ranges[0].count <= MAX_COUNT && start + ranges[0].count <= end
      && Tiles(ranges[1..], start + ranges[0].count, end)
  }

  lemma {:induction false} ChunksTile(start: nat, end: nat)
    requires start <= end
    ensures Tiles(Chunks(start, end), start, end)
    ensures |Chunks(start, end)| == (end - start + MAX_COUNT - 1) / MAX_COUNT
    decreases end - start
  {
    if start < end {
      var chunk := if end - start > MAX_COUNT then MAX_COUNT else end - start;
      ChunksTile(start + chunk, end);
      assert Chunks(start, end)[1..] == Chunks(start + chunk, end);
    }
  }

  /** The range of a tiling that holds a cell. */
  function Holder(ranges: seq<Range>, start: nat, end: nat, cell: nat): (i: nat)
    requires Tiles(ranges, start, end) && start <= cell < end
    ensures i < |ranges| && InRange(cell, ranges[i].start, ranges[i].count)
  {
    if cell < start + ranges[0].count then 0 else Holder(ranges[1..], start + ranges[0].count, end, cell) + 1
  }

  /** Every range of a tiling lies inside it, fits the encoding, and shares no cell with another. */
  lemma {:induction false} TilesApart(ranges: seq<Range>, start: nat, end: nat)
    requires Tiles(ranges, start, end)
    ensures forall i :: 0 <= i < |ranges| ==>
              && start <= ranges[i].start && 1 <= ranges[i].count <= MAX_COUNT
              && ranges[i].start + ranges[i].count <= end
    ensures forall i, j :: 0 <= i < j < |ranges| ==> ranges[i].start + ranges[i].count <= ranges[j].start
  {
    if ranges != [] {
      var rest := ranges[1..];
      TilesApart(rest, start + ranges[0].count, end);
      assert forall i :: 0 < i < |ranges| ==> ranges[i] == rest[i - 1];
    }
  }

  /** The cell is touched by one of the bytes. */
  ghost predicate Touched(offset: nat, bytes: nat, cell: nat) {
    exists byte: nat :: offset <= byte < offset + bytes && byte / GRANULE == cell
  }

  lemma TouchedCells(offset: nat, bytes: nat, cell: nat)
    requires 0 < bytes
    ensures Touched(offset, bytes, cell) <==> StartCell(offset) <= cell < EndCell(offset, bytes)
  {
    if StartCell(offset) <= cell < EndCell(offset, bytes) {
      var byte := if offset < cell * GRANULE then cell * GRANULE else offset;
      assert offset <= byte < offset + bytes && byte / GRANULE == cell;
    }
  }

  /** A byte range is rejected exactly when one of its bytes lies beyond the 16384 encodable cells. */
  lemma RejectedBeyondTable(offset: nat, bytes: nat)
    requires 0 < bytes
    ensures !Accepted(offset, bytes) <==> TABLE_BYTES < offset + bytes
  {
  }

  function Words(ranges: seq<Range>, kind: nat, owner: nat, epoch: nat, generation: nat): (r: seq<nat>)
    ensures |r| == |ranges|
    ensures forall i :: 0 <= i < |r| ==>
              r[i] == PackSampled(kind, owner, epoch, generation, ranges[i].start, ranges[i].count, false)
  {
    seq(|ranges|, i requires 0 <= i < |ranges| =>
      PackSampled(kind, owner, epoch, generation, ranges[i].start, ranges[i].count, false))
  }

  /** What a reader of the words makes of them. */
  function Decoded(words: seq<nat>): (r: seq<SampledEntry>)
    ensures |r| == |words|
  {
    seq(|words|, i requires 0 <= i < |words| => DecodeSampled(words[i]))
  }

  /** Reading back ranges that fit the encoding. */
  lemma WordsDecode(ranges: seq<Range>, kind: nat, owner: nat, epoch: nat, generation: nat)
    requires kind < 8
    requires forall i :: 0 <= i < |ranges| ==> ranges[i].start <= MAX_START && 1 <= ranges[i].count <= MAX_COUNT
    ensures Decoded(Words(ranges, kind, owner, epoch, generation))
         == seq(|ranges|, i requires 0 <= i < |ranges| =>
                SampledEntry(true, false, kind, owner % OWNERS, epoch % EPOCHS, generation % GENERATIONS,
                             ranges[i].start, ranges[i].count))
  {
    hide PackSampled, DecodeSampled;
    forall i | 0 <= i < |ranges|
      ensures DecodeSampled(PackSampled(kind, owner, epoch, generation, ranges[i].start, ranges[i].count, false))
           == SampledEntry(true, false, kind, owner % OWNERS, epoch % EPOCHS, generation % GENERATIONS,
                           ranges[i].start, ranges[i].count)
    {
      FittingRoundTrip(kind, owner, epoch, generation, ranges[i].start, ranges[i].count);
    }
  }

  /** The publishing pipeline is lossless: decoding the published words gives disjoint ascending ranges
      whose union is exactly the cells the bytes touch, with the other fields cut to their widths. */
  lemma PublishedWordsAreTheAccess(offset: nat, bytes: nat, kind: nat, owner: nat, epoch: nat, generation: nat)
    requires Accepted(offset, bytes) && kind < 8
    ensures var entries := Decoded(Words(RangesOf(offset, bytes), kind, owner, epoch, generation));
            && |entries| == (EndCell(offset, bytes) - StartCell(offset) + MAX_COUNT - 1) / MAX_COUNT
            && (forall e :: e in entries ==>
                  && e.valid && !e.consumed && e.kind == kind && e.owner == owner % OWNERS
                  && e.epoch == epoch % EPOCHS && e.generation == generation % GENERATIONS)
            && (forall i, j :: 0 <= i < j < |entries| ==> entries[i].start + entries[i].count <= entries[j].start)
            && (forall cell: nat :: Touched(offset, bytes, cell) <==>
                  exists e :: e in entries && InRange(cell, e.start, e.count))
  {
    hide StartCell, EndCell, Words, Decoded, Chunks;
    var start, end := StartCell(offset), EndCell(offset, bytes);
    StartBeforeEnd(offset, bytes);
    ChunksTile(start, end);
    TilesApart(RangesOf(offset, bytes), start, end);
    WordsDecode(RangesOf(offset, bytes), kind, owner, epoch, generation);
    var entries := Decoded(Words(RangesOf(offset, bytes), kind, owner, epoch, generation));
    forall cell: nat
      ensures Touched(offset, bytes, cell) <==> exists e :: e in entries && InRange(cell, e.start, e.count)
    {
      TouchedCells(offset, bytes, cell);
      EntriesCover(RangesOf(offset, bytes), entries, start, end, cell);
    }
  }

  lemma StartBeforeEnd(offset: nat, bytes: nat)
    requires 0 < bytes
    ensures StartCell(offset) < EndCell(offset, bytes)
  {
  }

  /** Entries over the ranges of a tiling cover exactly its cells. */
  lemma EntriesCover(ranges: seq<Range>, entries: seq<SampledEntry>, start: nat, end: nat, cell: nat)
    requires Tiles(ranges, start, end) && |entries| == |ranges|
    requires forall i :: 0 <= i < |entries| ==>
               entries[i].start == ranges[i].start && entries[i].count == ranges[i].count
    ensures start <= cell < end <==> exists e :: e in entries && InRange(cell, e.start, e.count)
  {
    TilesApart(ranges, start, end);
    if start <= cell < end {
      var e := entries[Holder(ranges, start, end, cell)];
      assert e in entries && InRange(cell, e.start, e.count);
    }
  }

  // ---------------------------------------------------------------- the specialised path

  function MaxSpannedCells(bytes: nat): nat { (bytes + 2 * GRANULE - 2) % TWO32 / GRANULE }

  function MaxValidStartByte(bytes: nat): nat { (TABLE_BYTES - bytes) % TWO32 }

  predicate FitsEncoding(bytes: nat) { 0 < bytes <= TABLE_BYTES }

  /** The bound is tight: no start spans more cells, and some start spans as many. */
  lemma SpanIsTight(bytes: nat, offset: nat)
    requires FitsEncoding(bytes)
    ensures EndCell(offset, bytes) - StartCell(offset) <= MaxSpannedCells(bytes)
    ensures EndCell(3, bytes) - StartCell(3) == MaxSpannedCells(bytes)
  {
  }

  /** Where the specialised path publishes one range, the loop would publish that range and no other. */
  lemma OneRange(bytes: nat, offset: nat)
    requires FitsEncoding(bytes) && MaxSpannedCells(bytes) <= MAX_COUNT
    ensures RangesOf(offset, bytes)
         == if MaxValidStartByte(bytes) < offset then []
            else [Range(StartCell(offset), (offset % GRANULE + bytes + GRANULE - 1) / GRANULE)]
  {
    SpanIsTight(bytes, offset);
    RejectedBeyondTable(offset, bytes);
    if Accepted(offset, bytes) {
      var start, end := StartCell(offset), EndCell(offset, bytes);
      assert Chunks(end, end) == [];
      assert Chunks(start, end) == [Range(start, end - start)];
    }
  }

  // ---------------------------------------------------------------- publishing

  /** The table after publishing words at the slots of their ranges. */
  function TableAfter(table: seq<nat>, slotOf: nat -> nat, ranges: seq<Range>, words: seq<nat>): (r: seq<nat>)
    requires 0 < |table| && |ranges| == |words|
    ensures |r| == |table|
    decreases |ranges|
  {
    if ranges == [] then table
    else
      var k := |ranges| - 1;
      TableAfter(table, slotOf, ranges[..k], words[..k])[slotOf(ranges[k].start) % |table| := words[k]]
  }

  /** A thread's publish-only context. The hash of start cell, epoch and generation into the table is
      arbitrary; a table without slots stands for missing storage. */
  class PublishContext {
    const table: array<nat>
    const generation: nat
    const subgroup: nat
    const slotHash: (nat, nat, nat) -> nat
    var epoch: nat

    /** Every range published so far. */
    ghost var published: seq<Range>

    constructor (table: array<nat>, generation: nat, subgroup: nat, epoch: nat, slotHash: (nat, nat, nat) -> nat)
      ensures this.table == table && this.generation == generation && this.subgroup == subgroup
      ensures this.epoch == epoch && this.slotHash == slotHash && published == []
    {
      this.table, this.generation, this.subgroup := table, generation, subgroup;
      this.epoch, this.slotHash, this.published := epoch, slotHash, [];
    }

    ghost function SlotOf(): nat -> nat
      reads this`epoch
    {
      var e, h, g := epoch, slotHash, generation;
      start => h(start, e, g)
    }

    /** The table after publishing these ranges now. */
    ghost function After(from: seq<nat>, store: bool, ranges: seq<Range>): seq<nat>
      requires 0 < |from|
      reads this`epoch
    {
      TableAfter(from, SlotOf(), ranges, Words(ranges, KindOf(store), subgroup, epoch, generation))
    }

    /** The next barrier interval, on the thread's own copy of the epoch. */
    method Barrier()
      modifies this`epoch
      ensures epoch == old(epoch) + 1
    {
      epoch := epoch + 1;
    }

    lemma AfterOneMore(from: seq<nat>, store: bool, ranges: seq<Range>, r: Range)
      requires 0 < |from|
      ensures After(from, store, ranges + [r])
           == After(from, store, ranges)[SlotOf()(r.start) % |from| :=
                PackSampled(KindOf(store), subgroup, epoch, generation, r.start, r.count, false)]
    {
      var all := Words(ranges + [r], KindOf(store), subgroup, epoch, generation);
      assert (ranges + [r])[..|ranges|] == ranges;
      assert all[..|ranges|] == Words(ranges, KindOf(store), subgroup, epoch, generation);
    }

    /** One exchange. */
    method RecordRange(store: bool, start: nat, count: nat)
      requires 0 < table.Length
      modifies this`published, table
      ensures published == old(published) + [Range(start, count)]
      ensures table[..] == old(table[..])[SlotOf()(start) % table.Length :=
                PackSampled(KindOf(store), subgroup, epoch, generation, start, count, false)]
    {
      var packed := PackSampled(KindOf(store), subgroup, epoch, generation, start, count, false);
      var slot := slotHash(start, epoch, generation) % table.Length;
      table[slot] := packed;
      published := published + [Range(start, count)];
    }

    /** One more chunk of an access whose earlier chunks are `done`. */
    method RecordChunk(store: bool, start: nat, count: nat, ghost origin: seq<nat>, ghost done: seq<Range>)
      requires 0 < table.Length == |origin| && table[..] == After(origin, store, done)
      modifies this`published, table
      ensures published == old(published) + [Range(start, count)]
      ensures table[..] == After(origin, store, done + [Range(start, count)])
    {
      AfterOneMore(origin, store, done, Range(start, count));
      RecordRange(store, start, count);
    }

    /** The chunk loop. */
    method PublishCells(store: bool, first: nat, end: nat)
      requires 0 < table.Length && first <= end
      modifies this`published, table
      ensures published == old(published) + Chunks(first, end)
      ensures table[..] == After(old(table[..]), store, Chunks(first, end))
    {
      ghost var done: seq<Range>, origin := [], table[..];
      var start := first;
      while start < end
        invariant start <= end
        invariant done + Chunks(start, end) == Chunks(first, end)
        invariant published == old(published) + done
        invariant table[..] == After(origin, store, done)
      {
        var remaining := end - start;
        var chunk := if remaining > MAX_COUNT then MAX_COUNT else remaining;
        NextChunk(done, first, start, end);
        RecordChunk(store, start, chunk, origin, done);
        done := done + [Range(start, chunk)];
        start := start + chunk;
      }
      assert done == Chunks(first, end);
    }

    /** The range test and loop shared by both entry points. */
    method PublishChunks(store: bool, offset: nat, bytes: nat)
      requires 0 < table.Length && 0 < bytes
      modifies this`published, table
      ensures published == old(published) + RangesOf(offset, bytes)
      ensures table[..] == After(old(table[..]), store, RangesOf(offset, bytes))
    {
      var lastByte := offset + bytes - 1;
      var start := offset / GRANULE;
      var end := lastByte / GRANULE + 1;
      if start > MAX_START || end > MAX_START + 1 {
        return;
      }
      PublishCells(store, start, end);
    }

    /** A single range. */
    method PublishOne(store: bool, start: nat, count: nat)
      requires 0 < table.Length
      modifies this`published, table
      ensures published == old(published) + [Range(start, count)]
      ensures table[..] == After(old(table[..]), store, [Range(start, count)])
    {
      assert After(table[..], store, []) == table[..];
      RecordChunk(store, start, count, table[..], []);
      assert [] + [Range(start, count)] == [Range(start, count)];
    }

    /** The entry point whose size is known at run time. */
    method RecordAccessAt(selected: bool, store: bool, offset: nat, bytes: nat)
      requires offset < TWO32 && bytes < TWO32
      modifies this`published, table
      ensures published == old(published)
                + if selected && 0 < table.Length then RangesOf(offset, bytes) else []
      ensures selected && 0 < table.Length ==> table[..] == After(old(table[..]), store, RangesOf(offset, bytes))
      ensures !selected ==> table[..] == old(table[..])
    {
      if bytes == 0 || table.Length == 0 {
        return;
      }
      if !selected {
        return;
      }
      PublishChunks(store, offset, bytes);
    }

    /** The entry point whose size is a compile-time constant: it rejects the same accesses and publishes
        the same ranges. */
    method RecordAccessOfSize(bytes: nat, selected: bool, store: bool, offset: nat)
      requires offset < TWO32 && 0 < bytes < TWO32
      modifies this`published, table
      ensures published == old(published)
                + if selected && 0 < table.Length then RangesOf(offset, bytes) else []
      ensures selected && 0 < table.Length ==> table[..] == After(old(table[..]), store, RangesOf(offset, bytes))
      ensures !selected ==> table[..] == old(table[..])
    {
      hide Words;
      if table.Length == 0 {
        return;
      }
      if !selected {
        return;
      }
      if !FitsEncoding(bytes) {
        RejectedBeyondTable(offset, bytes);
        return;
      }
      if MaxSpannedCells(bytes) <= MAX_COUNT {
        OneRange(bytes, offset);
        if offset > MaxValidStartByte(bytes) {
          return;
        }
        var start := offset / GRANULE;
        var count := (offset % GRANULE + bytes + GRANULE - 1) / GRANULE;
        PublishOne(store, start, count);
      } else {
        PublishChunks(store, offset, bytes);
      }
    }
  }
}
