/** What a whole access leaves in the sampled table and what it reports, in terms of the accesses: which
    indices are looked at, what the published words say, which earlier words are reported. */
module SampledAccess {
  import opened Arith
  import opened ShadowWords
  import opened SampledRanges
  import opened ProbeScan
  import opened SampledScan
  import opened Diagnostics

  // ---------------------------------------------------------------- where an access looks

  /** The slot of a range. */
  ghost function SlotFor(u: Setup, r: Range): (i: nat)
    requires 0 < u.capacity
    ensures i < u.capacity
  {
    u.slotHash(r.start, u.epoch, u.generation) % u.capacity
  }

  /** The hash is made odd before it is cut to the table. */
  ghost function StepFor(u: Setup, r: Range): nat
    requires 0 < u.capacity
  {
    var mixed := u.stepHash(u.seed, r.start);
    if u.capacity == 1 then 0 else (if mixed % 2 == 0 then mixed + 1 else mixed) % u.capacity
  }

  /** The displaced entry is looked at, and those at 32-bit strides from it, as many as configured; all that
      the capacity allows when 0 is configured. */
  ghost predicate LooksAt(u: Setup, r: Range, i: nat)
    requires 0 < u.capacity
  {
    || i == SlotFor(u, r)
    || exists q: nat :: q < u.capacity && (u.probeCount == 0 || q < u.probeCount) && i == Stride(u, r, q)
  }

  ghost function Stride(u: Setup, r: Range, q: nat): nat
    requires 0 < u.capacity
  {
    (SlotFor(u, r) + q * StepFor(u, r)) % 0x1_0000_0000 % u.capacity
  }

  lemma PublishLooks(u: Setup, store: bool, r: Range, tokens: Tokens, o: Origin, i: nat)
    requires 0 < u.capacity
    ensures var p := PublishOf(u, store, r, tokens, o);
            p.slot == SlotFor(u, r) && ((i == p.slot || i in p.visited) <==> LooksAt(u, r, i))
  {
    var p := PublishOf(u, store, r, tokens, o);
    assert forall q :: 0 <= q < |p.visited| ==> p.visited[q] == Stride(u, r, q);
  }

  // ---------------------------------------------------------------- what an access says

  /** The entry of a published range: its kind is 2 for a store and 1 for a load. */
  ghost predicate Says(word: nat, u: Setup, store: bool, r: Range) {
    DecodeSampled(word) == SampledEntry(true, false, if store then 2 else 1, u.subgroup % 0x400, u.epoch % 0x400,
                                        u.generation % 0x10_0000, r.start, r.count)
  }

  /** The acquired tokens order the entry before the access. */
  ghost predicate TokenOrders(tokens: Tokens, e: SampledEntry, g: nat) {
    && g < tokens.n && e.owner < tokens.n && 0 <= g * tokens.n + e.owner < |tokens.matrix|
    && e.epoch + 1 <= tokens.matrix[g * tokens.n + e.owner]
  }

  /** The entry is live, of the same epoch and generation (to the widths of their fields), of another
      subgroup, not a load if the access is one, shares a cell, and is not ordered by a token. */
  ghost predicate Clashes(e: SampledEntry, u: Setup, store: bool, r: Range, tokens: Tokens) {
    && e.valid && !e.consumed && e.kind != 0 && (store || e.kind != 1)
    && e.epoch == u.epoch % 0x400 && e.generation == u.generation % 0x10_0000 && e.owner != u.subgroup % 0x400
    && (exists c: nat :: InRange(c, r.start, r.count) && InRange(c, e.start, e.count))
    && !TokenOrders(tokens, e, u.subgroup % 0x400)
  }

  /** The report names the two subgroups, and byte addresses and sizes of the earlier range and the access. */
  ghost function ReportFor(e: SampledEntry, u: Setup, o: Origin): Diagnostic {
    AccessConflict(u.epoch % 0x400, e.owner, u.subgroup % 0x400, e.start * 4, o.offset, e.count * 4, o.bytes, 0, o.site)
  }

  lemma WordSays(u: Setup, store: bool, r: Range)
    requires Encodable(r)
    ensures Says(WordOf(u, store, r), u, store, r)
  {
    hide PackSampled, DecodeSampled;
    EntryDecodes(u, store, r);
  }

  lemma PublishSays(u: Setup, store: bool, r: Range, tokens: Tokens, o: Origin)
    requires Encodable(r) && 0 < u.capacity
    ensures Says(PublishOf(u, store, r, tokens, o).packed, u, store, r)
  {
    hide PackSampled, DecodeSampled, Says;
    WordSays(u, store, r);
  }

  /** A word is a hit exactly if its entry clashes, and its report is the one of that entry. */
  lemma HitClashes(word: nat, packed: nat, u: Setup, store: bool, r: Range, tokens: Tokens, o: Origin)
    requires Encodable(r) && Says(packed, u, store, r)
    ensures Hit(word, DecodeSampled(packed), tokens) <==> Clashes(DecodeSampled(word), u, store, r, tokens)
    ensures ReportOf(word, DecodeSampled(packed), o) == ReportFor(DecodeSampled(word), u, o)
  {
    var e := DecodeSampled(word);
    OverlapMeansSharedCell(r.start, r.count, e.start, e.count);
  }

  /** What one publish reports, in terms of the two accesses: the word an earlier access published is reported
      exactly if the publish looks at it, the accesses race, and the tokens do not order them. */
  lemma HitsAreRaces(table: seq<nat>, u: Setup, store: bool, r: Range, tokens: Tokens, o: Origin, v: Setup,
                     priorStore: bool, prior: Range, i: nat)
    requires Encodable(r) && Encodable(prior) && 0 < u.capacity == |table| && i < |table|
    requires Says(table[i], v, priorStore, prior)
    ensures i in PublishHits(table, PublishOf(u, store, r, tokens, o))
       <==> && LooksAt(u, r, i) && SampledRace(u, store, r, v, priorStore, prior)
            && !TokenOrders(tokens, DecodeSampled(table[i]), u.subgroup % 0x400)
  {
    hide PublishOf, PublishHits, Hit, DecodeSampled, LooksAt;
    var p := PublishOf(u, store, r, tokens, o);
    PublishLooks(u, store, r, tokens, o, i);
    PublishReportsConflicts(table, p);
    PublishSays(u, store, r, tokens, o);
    HitClashes(table[i], p.packed, u, store, r, tokens, o);
    PublishTokens(u, store, r, tokens, o);
  }

  lemma PublishTokens(u: Setup, store: bool, r: Range, tokens: Tokens, o: Origin)
    requires 0 < u.capacity
    ensures var p := PublishOf(u, store, r, tokens, o); p.tokens == tokens && p.origin == o
  {
  }

  // ---------------------------------------------------------------- whole accesses

  /** The last range whose slot is x, or -1. */
  ghost function LastAt(u: Setup, ranges: seq<Range>, x: nat): (k: int)
    requires 0 < u.capacity
    ensures -1 <= k < |ranges|
    ensures 0 <= k ==> SlotFor(u, ranges[k]) == x
    ensures forall m :: k < m < |ranges| ==> SlotFor(u, ranges[m]) != x
  {
    if ranges == [] then -1
    else if SlotFor(u, ranges[|ranges| - 1]) == x then |ranges| - 1
    else LastAt(u, ranges[..|ranges| - 1], x)
  }

  ghost predicate AllEncodable(ranges: seq<Range>) {
    forall k :: 0 <= k < |ranges| ==> Encodable(ranges[k])
  }

  /** An index keeps its word, unless ranges have it as their slot; then it holds the word of the last one. */
  ghost predicate Left(after: seq<nat>, table: seq<nat>, u: Setup, store: bool, ranges: seq<Range>, x: nat)
    requires 0 < u.capacity == |table| == |after| && x < |table|
  {
    var k := LastAt(u, ranges, x);
    if k < 0 then after[x] == table[x] else Says(after[x], u, store, ranges[k])
  }

  ghost predicate AllLeft(after: seq<nat>, table: seq<nat>, u: Setup, store: bool, ranges: seq<Range>)
    requires 0 < u.capacity == |table| == |after|
  {
    forall x: nat :: x < |table| ==> Left(after, table, u, store, ranges, x)
  }

  lemma {:induction false} TableLeft(table: seq<nat>, u: Setup, store: bool, ranges: seq<Range>, tokens: Tokens,
                                     o: Origin, x: nat)
    requires 0 < u.capacity == |table| && AllEncodable(ranges) && x < |table|
    ensures Left(PublishAll(table, u, store, ranges, tokens, o).table, table, u, store, ranges, x)
  {
    hide PublishReports, Says;
    if ranges != [] {
      var k := |ranges| - 1;
      TableLeft(table, u, store, ranges[..k], tokens, o, x);
      PublishSays(u, store, ranges[k], tokens, o);
      PublishLooks(u, store, ranges[k], tokens, o, x);
    }
  }

  /** Range k of the access reports index i, which no earlier range of it has overwritten. */
  ghost predicate Judged(table: seq<nat>, u: Setup, store: bool, ranges: seq<Range>, tokens: Tokens, k: nat, i: nat)
    requires 0 < u.capacity == |table|
  {
    && k < |ranges| && i < |table| && LooksAt(u, ranges[k], i)
    && (forall m :: 0 <= m < k ==> SlotFor(u, ranges[m]) != i)
    && Clashes(DecodeSampled(table[i]), u, store, ranges[k], tokens)
  }

  ghost predicate Reported(table: seq<nat>, u: Setup, store: bool, ranges: seq<Range>, tokens: Tokens, o: Origin,
                           d: Diagnostic)
    requires 0 < u.capacity == |table|
  {
    exists k: nat, i: nat ::
      Judged(table, u, store, ranges, tokens, k, i) && d == ReportFor(DecodeSampled(table[i]), u, o)
  }

  /** Its own earlier words are no hits for an access. */
  lemma OwnWordsAreSilent(word: nat, u: Setup, store: bool, r: Range, own: Range, tokens: Tokens)
    requires Says(word, u, store, own)
    ensures !Clashes(DecodeSampled(word), u, store, r, tokens)
  {
  }

  /** What the next range reports: the indices it looks at that the access has not overwritten. */
  lemma LastHits(table: seq<nat>, before: seq<nat>, u: Setup, store: bool, ranges: seq<Range>, tokens: Tokens,
                 o: Origin, i: nat)
    requires 0 < u.capacity == |table| == |before| && AllEncodable(ranges) && ranges != [] && i < |table|
    requires Left(before, table, u, store, ranges[..|ranges| - 1], i)
    ensures var k := |ranges| - 1;
            && (i in PublishHits(before, PublishOf(u, store, ranges[k], tokens, o))
                <==> Judged(table, u, store, ranges, tokens, k, i))
            && (Judged(table, u, store, ranges, tokens, k, i) ==> before[i] == table[i])
  {
    hide PublishOf, PublishHits, Hit, DecodeSampled, LooksAt, Says, Clashes;
    var k := |ranges| - 1;
    var p := PublishOf(u, store, ranges[k], tokens, o);
    PublishLooks(u, store, ranges[k], tokens, o, i);
    PublishReportsConflicts(before, p);
    PublishSays(u, store, ranges[k], tokens, o);
    PublishTokens(u, store, ranges[k], tokens, o);
    HitClashes(before[i], p.packed, u, store, ranges[k], tokens, o);
    var m := LastAt(u, ranges[..k], i);
    if 0 <= m {
      OwnWordsAreSilent(before[i], u, store, ranges[k], ranges[m], tokens);
    }
  }

  lemma LastReports(table: seq<nat>, before: seq<nat>, u: Setup, store: bool, ranges: seq<Range>, tokens: Tokens,
                    o: Origin, d: Diagnostic)
    requires 0 < u.capacity == |table| == |before| && AllEncodable(ranges) && ranges != []
    requires AllLeft(before, table, u, store, ranges[..|ranges| - 1])
    ensures var k := |ranges| - 1;
            d in PublishReports(before, PublishOf(u, store, ranges[k], tokens, o))
            <==> exists i: nat :: Judged(table, u, store, ranges, tokens, k, i)
                                  && d == ReportFor(DecodeSampled(table[i]), u, o)
  {
    hide PublishOf, PublishHits, Hit, DecodeSampled, Judged, Left, ReportFor, ReportOf, Says;
    var k := |ranges| - 1;
    var p := PublishOf(u, store, ranges[k], tokens, o);
    var hits, reports := PublishHits(before, p), PublishReports(before, p);
    PublishTokens(u, store, ranges[k], tokens, o);
    PublishSays(u, store, ranges[k], tokens, o);
    forall n | 0 <= n < |hits|
      ensures reports[n] == ReportFor(DecodeSampled(table[hits[n]]), u, o)
      ensures Judged(table, u, store, ranges, tokens, k, hits[n])
    {
      LastHits(table, before, u, store, ranges, tokens, o, hits[n]);
      HitClashes(before[hits[n]], p.packed, u, store, ranges[k], tokens, o);
    }
    forall i: nat | Judged(table, u, store, ranges, tokens, k, i) ensures i < |table| {
      JudgedInside(table, u, store, ranges, tokens, k, i);
    }
    if i: nat :| i < |table| && Judged(table, u, store, ranges, tokens, k, i)
                 && d == ReportFor(DecodeSampled(table[i]), u, o) {
      LastHits(table, before, u, store, ranges, tokens, o, i);
      var n :| 0 <= n < |hits| && hits[n] == i;
      assert reports[n] == d;
    }
  }

  lemma JudgedInside(table: seq<nat>, u: Setup, store: bool, ranges: seq<Range>, tokens: Tokens, k: nat, i: nat)
    requires 0 < u.capacity == |table| && Judged(table, u, store, ranges, tokens, k, i)
    ensures k < |ranges| && i < |table|
  {
  }

  /** Earlier ranges are judged alike, whatever ranges follow. */
  lemma JudgedPrefix(table: seq<nat>, u: Setup, store: bool, ranges: seq<Range>, n: nat, tokens: Tokens, k: nat, i: nat)
    requires 0 < u.capacity == |table| && n <= |ranges| && k < n
    ensures Judged(table, u, store, ranges[..n], tokens, k, i) <==> Judged(table, u, store, ranges, tokens, k, i)
  {
    hide Clashes, LooksAt, DecodeSampled;
  }

  /** The reports of all ranges are exactly the clashes each looked at, and not overwritten by the access. */
  lemma {:induction false} ReportsOfAll(table: seq<nat>, u: Setup, store: bool, ranges: seq<Range>, tokens: Tokens,
                                        o: Origin, d: Diagnostic)
    requires 0 < u.capacity == |table| && AllEncodable(ranges)
    ensures d in PublishAll(table, u, store, ranges, tokens, o).reports
       <==> u.reporting && Reported(table, u, store, ranges, tokens, o, d)
  {
    hide Judged, ReportFor, PublishOf, PublishReports, Left;
    if ranges != [] {
      var k := |ranges| - 1;
      var before := PublishAll(table, u, store, ranges[..k], tokens, o);
      ReportsOfAll(table, u, store, ranges[..k], tokens, o, d);
      forall x: nat | x < |table| ensures Left(before.table, table, u, store, ranges[..k], x) {
        TableLeft(table, u, store, ranges[..k], tokens, o, x);
      }
      LastReports(table, before.table, u, store, ranges, tokens, o, d);
      ReportedGrows(table, u, store, ranges, tokens, o, d);
    } else {
      NothingJudged(table, u, store, tokens);
    }
  }

  lemma NothingJudged(table: seq<nat>, u: Setup, store: bool, tokens: Tokens)
    requires 0 < u.capacity == |table|
    ensures forall k: nat, i: nat :: !Judged(table, u, store, [], tokens, k, i)
  {
  }

  lemma ReportedGrows(table: seq<nat>, u: Setup, store: bool, ranges: seq<Range>, tokens: Tokens, o: Origin,
                      d: Diagnostic)
    requires 0 < u.capacity == |table| && ranges != []
    ensures var k := |ranges| - 1;
            Reported(table, u, store, ranges, tokens, o, d)
            <==> || Reported(table, u, store, ranges[..k], tokens, o, d)
                 || exists i: nat :: Judged(table, u, store, ranges, tokens, k, i)
                                     && d == ReportFor(DecodeSampled(table[i]), u, o)
  {
    hide Judged, ReportFor, DecodeSampled;
    var k := |ranges| - 1;
    forall m: nat, i: nat | m < k
      ensures Judged(table, u, store, ranges[..k], tokens, m, i) <==> Judged(table, u, store, ranges, tokens, m, i)
    {
      JudgedPrefix(table, u, store, ranges, k, tokens, m, i);
    }
    forall m: nat, i: nat | Judged(table, u, store, ranges, tokens, m, i) ensures m < |ranges| {
      JudgedInside(table, u, store, ranges, tokens, m, i);
    }
    forall m: nat, i: nat | Judged(table, u, store, ranges[..k], tokens, m, i) ensures m < k {
      JudgedInside(table, u, store, ranges[..k], tokens, m, i);
    }
  }

  lemma RangesEncodable(offset: nat, bytes: nat)
    requires Accepted(offset, bytes)
    ensures AllEncodable(RangesOf(offset, bytes))
  {
    hide Chunks, StartCell, EndCell;
    StartBeforeEnd(offset, bytes);
    ChunksTile(StartCell(offset), EndCell(offset, bytes));
    TilesApart(RangesOf(offset, bytes), StartCell(offset), EndCell(offset, bytes));
  }

  /** A recorded access that fits leaves, in the slot of each of its ranges, a word that decodes to that range (of
      the last range with that slot), a load as kind 1 and a store as kind 2, and every other word as it was;
      it reports exactly the clashing words that its ranges look at and have not overwritten. */
  lemma AccessIsPublishedAndJudged(table: seq<nat>, u: Setup, store: bool, tokens: Tokens, o: Origin)
    requires 0 < u.capacity == |table| && 0 < o.bytes && o.offset + o.bytes <= 0x1_0000
    ensures var end, ranges := AccessOutcome(table, u, true, store, tokens, o), RangesOf(o.offset, o.bytes);
            && |end.table| == |table|
            && AllLeft(end.table, table, u, store, ranges)
            && (forall d :: d in end.reports <==> u.reporting && Reported(table, u, store, ranges, tokens, o, d))
  {
    hide PublishAll, Left, Reported, RangesOf;
    RejectedBeyondTable(o.offset, o.bytes);
    RangesEncodable(o.offset, o.bytes);
    var ranges := RangesOf(o.offset, o.bytes);
    assert AccessOutcome(table, u, true, store, tokens, o) == PublishAll(table, u, store, ranges, tokens, o) by {
      AcceptedRanges(o.offset, o.bytes);
    }
    forall x: nat | x < |table|
      ensures Left(PublishAll(table, u, store, ranges, tokens, o).table, table, u, store, ranges, x)
    {
      TableLeft(table, u, store, ranges, tokens, o, x);
    }
    forall d
      ensures d in PublishAll(table, u, store, ranges, tokens, o).reports
         <==> u.reporting && Reported(table, u, store, ranges, tokens, o, d)
    {
      ReportsOfAll(table, u, store, ranges, tokens, o, d);
    }
  }

  lemma AcceptedRanges(offset: nat, bytes: nat)
    requires Accepted(offset, bytes)
    ensures RangesOf(offset, bytes) == Chunks(StartCell(offset), EndCell(offset, bytes))
  {
  }

  /** All other accesses leave the table alone. The empty and the unselected ones say nothing; where there is no
      table, or a byte lies beyond the encodable 64 KiB, the access is reported as metadata_full. */
  lemma OtherAccessesLeaveTable(table: seq<nat>, u: Setup, selected: bool, store: bool, tokens: Tokens, o: Origin)
    requires u.capacity == |table|
    requires o.bytes == 0 || |table| == 0 || !selected || 0x1_0000 < o.offset + o.bytes
    ensures AccessOutcome(table, u, selected, store, tokens, o)
         == Outcome(table, if o.bytes != 0 && (|table| == 0 || selected)
                           then [MetadataFull(u.epoch, u.subgroup, 0, o.offset, o.bytes)] else [])
  {
    if 0 < o.bytes { RejectedBeyondTable(o.offset, o.bytes); }
  }

  // ---------------------------------------------------------------- the publish-only context

  /** The publish-only context leaves the table that the reporting one leaves. */
  lemma {:induction false} PublishOnlyAgrees(c: PublishContext, table: seq<nat>, store: bool, ranges: seq<Range>,
                                             u: Setup, tokens: Tokens, o: Origin)
    requires 0 < u.capacity == |table| && u.generation == c.generation && u.subgroup == c.subgroup
    requires u.epoch == c.epoch && u.slotHash == c.slotHash
    ensures c.After(table, store, ranges) == PublishAll(table, u, store, ranges, tokens, o).table
  {
    hide PackSampled, PublishReports;
    if ranges != [] {
      var k := |ranges| - 1;
      PublishOnlyAgrees(c, table, store, ranges[..k], u, tokens, o);
      c.AfterOneMore(table, store, ranges[..k], ranges[k]);
      assert ranges == ranges[..k] + [ranges[k]];
      assert c.SlotOf()(ranges[k].start) == u.slotHash(ranges[k].start, u.epoch, u.generation);
    }
  }

  /** So what it publishes says what the access is, too. */
  lemma PublishOnlyLeaves(c: PublishContext, table: seq<nat>, store: bool, ranges: seq<Range>, u: Setup)
    requires 0 < u.capacity == |table| && u.generation == c.generation && u.subgroup == c.subgroup
    requires u.epoch == c.epoch && u.slotHash == c.slotHash && AllEncodable(ranges)
    ensures AllLeft(c.After(table, store, ranges), table, u, store, ranges)
  {
    hide Left;
    var tokens, o := Tokens([], 0), Origin(0, 0, 0);
    PublishOnlyAgrees(c, table, store, ranges, u, tokens, o);
    forall x: nat | x < |table| ensures Left(c.After(table, store, ranges), table, u, store, ranges, x) {
      TableLeft(table, u, store, ranges, tokens, o, x);
    }
  }

  // ---------------------------------------------------------------- loads

  /** Every word is empty, consumed, or a load's. */
  ghost predicate OnlyLoads(table: seq<nat>) {
    forall i :: 0 <= i < |table| ==>
      var e := DecodeSampled(table[i]); !e.valid || e.consumed || e.kind == 0 || e.kind == 1
  }

  /** Loads are silent: whatever subgroups and tokens, loading from a table of loads reports no conflict and
      leaves a table of loads. */
  lemma LoadsNeverConflict(table: seq<nat>, u: Setup, selected: bool, tokens: Tokens, o: Origin)
    requires u.capacity == |table| && OnlyLoads(table)
    ensures var end := AccessOutcome(table, u, selected, false, tokens, o);
            OnlyLoads(end.table) && forall d :: d in end.reports ==> d.MetadataFull?
  {
    hide Accepted, PublishAll, RangesOf;
    if o.bytes == 0 || |table| == 0 || !selected || 0x1_0000 < o.offset + o.bytes {
      OtherAccessesLeaveTable(table, u, selected, false, tokens, o);
    } else {
      var end, ranges := AccessOutcome(table, u, true, false, tokens, o), RangesOf(o.offset, o.bytes);
      AccessIsPublishedAndJudged(table, u, false, tokens, o);
      forall x: nat | x < |table|
        ensures var e := DecodeSampled(end.table[x]); !e.valid || e.consumed || e.kind == 0 || e.kind == 1
      {
        assert Left(end.table, table, u, false, ranges, x);
      }
    }
  }
}
