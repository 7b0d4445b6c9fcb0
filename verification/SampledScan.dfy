/** The sampled backend of the device context: publish a range by exchange, then report the displaced
    entry and what a scan of the table finds. One thread at a time. */
module SampledScan {
  import opened Arith
  import opened ShadowWords
  import opened SampledRanges
  import opened ProbeScan
  import opened Diagnostics

  /** The acquired tokens a check consults: a matrix of n subgroups, or nothing. */
  datatype Tokens = Tokens(matrix: seq<nat>, n: nat)

  /** The table word is a conflict with `current` that no acquired token orders. */
  predicate Hit(word: nat, current: SampledEntry, tokens: Tokens) {
    var prior := DecodeSampled(word);
    SampledConflict(current, prior) && !OrderedBy(tokens.matrix, tokens.n, prior.owner, prior.epoch, current.owner)
  }

  /** What the access contributes to a report. */
  datatype Origin = Origin(offset: nat, bytes: nat, site: nat)

  function ReportOf(word: nat, current: SampledEntry, o: Origin): Diagnostic {
    var prior := DecodeSampled(word);
    AccessConflict(current.epoch, prior.owner, current.owner, prior.start * GRANULE, o.offset,
                   prior.count * GRANULE, o.bytes, 0, o.site)
  }

  function Reports(words: seq<nat>, current: SampledEntry, o: Origin): (r: seq<Diagnostic>)
    ensures |r| == |words|
    ensures forall i :: 0 <= i < |r| ==> r[i] == ReportOf(words[i], current, o)
  {
    seq(|words|, i requires 0 <= i < |words| => ReportOf(words[i], current, o))
  }

  /** The table indices a scan reports, in probing order. */
  function ScanHits(table: seq<nat>, current: SampledEntry, tokens: Tokens, visited: seq<nat>): (r: seq<nat>)
    requires forall p :: 0 <= p < |visited| ==> visited[p] < |table|
    ensures forall k :: 0 <= k < |r| ==> r[k] < |table| && r[k] in visited && Hit(table[r[k]], current, tokens)
  {
    if visited == [] then []
    else
      var k := |visited| - 1;
      ScanHits(table, current, tokens, visited[..k])
      + if Hit(table[visited[k]], current, tokens) then [visited[k]] else []
  }

  /** What a scan emits. */
  function ScanReports(table: seq<nat>, current: SampledEntry, tokens: Tokens, visited: seq<nat>,
                       o: Origin): seq<Diagnostic>
    requires forall p :: 0 <= p < |visited| ==> visited[p] < |table|
  {
    Reports(At(table, ScanHits(table, current, tokens, visited)), current, o)
  }

  /** The words at given indices. */
  function At(table: seq<nat>, indices: seq<nat>): (r: seq<nat>)
    requires forall k :: 0 <= k < |indices| ==> indices[k] < |table|
    ensures |r| == |indices|
  {
    seq(|indices|, k requires 0 <= k < |indices| => table[indices[k]])
  }

  /** A scan reports a visited index exactly when its entry is a hit, and once if it is visited once. */
  lemma {:induction false} ScanHitsExact(table: seq<nat>, current: SampledEntry, tokens: Tokens, visited: seq<nat>)
    requires forall p :: 0 <= p < |visited| ==> visited[p] < |table|
    ensures forall i: nat :: i in ScanHits(table, current, tokens, visited)
                        <==> i in visited && Hit(table[i], current, tokens)
    ensures Distinct(visited) ==> Distinct(ScanHits(table, current, tokens, visited))
  {
    if visited != [] {
      var k := |visited| - 1;
      ScanHitsExact(table, current, tokens, visited[..k]);
      assert visited == visited[..k] + [visited[k]];
      assert Distinct(visited) ==> Distinct(visited[..k]) && visited[k] !in visited[..k];
    }
  }

  /** A published entry never conflicts with itself. */
  lemma OwnEntryIsNoHit(word: nat, tokens: Tokens)
    ensures !Hit(word, DecodeSampled(word), tokens)
  {
  }

  /** Everything one publish consults: its word, slot, visited indices and the tokens. */
  datatype Publish = Publish(packed: nat, slot: nat, visited: seq<nat>, tokens: Tokens, origin: Origin)

  predicate FitsTable(table: seq<nat>, p: Publish) {
    p.slot < |table| && forall i :: 0 <= i < |p.visited| ==> p.visited[i] < |table|
  }

  /** The indices of the table before the publish that it reports: the displaced entry, then the scan. */
  function PublishHits(table: seq<nat>, p: Publish): (r: seq<nat>)
    requires FitsTable(table, p)
    ensures forall k :: 0 <= k < |r| ==> r[k] < |table|
  {
    var current := DecodeSampled(p.packed);
    (if Hit(table[p.slot], current, p.tokens) then [p.slot] else [])
    + ScanHits(table[p.slot := p.packed], current, p.tokens, p.visited)
  }

  function PublishReports(table: seq<nat>, p: Publish): seq<Diagnostic>
    requires FitsTable(table, p)
  {
    Reports(At(table, PublishHits(table, p)), DecodeSampled(p.packed), p.origin)
  }

  lemma ScanSkipsOwnSlot(table: seq<nat>, p: Publish)
    requires FitsTable(table, p)
    ensures p.slot !in ScanHits(table[p.slot := p.packed], DecodeSampled(p.packed), p.tokens, p.visited)
  {
    ScanHitsExact(table[p.slot := p.packed], DecodeSampled(p.packed), p.tokens, p.visited);
    OwnEntryIsNoHit(p.packed, p.tokens);
  }

  /** A publish reports exactly the unordered conflicts among the displaced entry and the visited ones,
      each once if no index is visited twice. */
  lemma PublishReportsConflicts(table: seq<nat>, p: Publish)
    requires FitsTable(table, p)
    ensures forall i: nat :: i in PublishHits(table, p)
                        <==> && i < |table| && Hit(table[i], DecodeSampled(p.packed), p.tokens)
                             && (i == p.slot || i in p.visited)
    ensures Distinct(p.visited) ==> Distinct(PublishHits(table, p))
  {
    ScanSkipsOwnSlot(table, p);
    ScanHitsExact(table[p.slot := p.packed], DecodeSampled(p.packed), p.tokens, p.visited);
  }

  /** What configuration and hashes make of one range. */
  datatype Setup = Setup(generation: nat, subgroup: nat, epoch: nat, seed: nat, capacity: nat, probeCount: nat,
                         reporting: bool, slotHash: (nat, nat, nat) -> nat, stepHash: (nat, nat) -> nat)

  function PublishOf(u: Setup, store: bool, r: Range, tokens: Tokens, o: Origin): (p: Publish)
    requires 0 < u.capacity
    ensures p.slot < u.capacity && forall i :: 0 <= i < |p.visited| ==> p.visited[i] < u.capacity
  {
    var slot := MapIndex(u.slotHash(r.start, u.epoch, u.generation), u.capacity);
    var step := ProbeStep(u.stepHash(u.seed, r.start), u.capacity);
    Publish(WordOf(u, store, r), slot,
            Probed(slot, step, u.capacity, ProbeCount(u.probeCount, u.capacity)), tokens, o)
  }

  /** With probe count 0 and a capacity that is a power of two, whatever the hashes, a publish reports
      exactly the conflicting, unordered entries that the table holds, each once. */
  lemma ZeroProbeCountReportsAll(u: Setup, store: bool, r: Range, tokens: Tokens, o: Origin, table: seq<nat>)
    requires |table| == u.capacity <= TWO32 && PowerOfTwo(u.capacity) && u.probeCount == 0
    ensures var p := PublishOf(u, store, r, tokens, o);
            && Distinct(PublishHits(table, p))
            && forall i: nat :: i in PublishHits(table, p)
                 <==> i < |table| && Hit(table[i], DecodeSampled(p.packed), tokens)
  {
    var p := PublishOf(u, store, r, tokens, o);
    PowerOfTwoScan(p.slot, u.stepHash(u.seed, r.start), u.capacity, u.capacity);
    PublishReportsConflicts(table, p);
  }

  function WordOf(u: Setup, store: bool, r: Range): nat {
    PackSampled(KindOf(store), u.subgroup, u.epoch, u.generation, r.start, r.count, false)
  }

  predicate Encodable(r: Range) { r.start <= MAX_START && 1 <= r.count <= MAX_COUNT }

  function EntryOf(u: Setup, store: bool, r: Range): SampledEntry {
    SampledEntry(true, false, KindOf(store), u.subgroup % OWNERS, u.epoch % EPOCHS, u.generation % GENERATIONS,
                 r.start, r.count)
  }

  lemma EntryDecodes(u: Setup, store: bool, r: Range)
    requires Encodable(r)
    ensures DecodeSampled(WordOf(u, store, r)) == EntryOf(u, store, r)
  {
    hide PackSampled, DecodeSampled;
    FittingRoundTrip(KindOf(store), u.subgroup, u.epoch, u.generation, r.start, r.count);
  }

  /** Same epoch and generation, different subgroups, at least one write, a common cell. */
  ghost predicate SampledRace(u: Setup, store: bool, r: Range, v: Setup, priorStore: bool, prior: Range) {
    && u.epoch % EPOCHS == v.epoch % EPOCHS && u.generation % GENERATIONS == v.generation % GENERATIONS
    && u.subgroup % OWNERS != v.subgroup % OWNERS && (store || priorStore)
    && exists c: nat :: InRange(c, r.start, r.count) && InRange(c, prior.start, prior.count)
  }

  lemma EntriesRace(u: Setup, store: bool, r: Range, v: Setup, priorStore: bool, prior: Range)
    requires Encodable(r) && Encodable(prior)
    ensures SampledConflict(EntryOf(u, store, r), EntryOf(v, priorStore, prior))
       <==> SampledRace(u, store, r, v, priorStore, prior)
  {
    OverlapMeansSharedCell(r.start, r.count, prior.start, prior.count);
  }

  /** A published word is a hit for another exactly when the two accesses race (up to the field widths)
      and the earlier one's epoch was not acquired. */
  lemma HitMeansRace(u: Setup, store: bool, r: Range, v: Setup, priorStore: bool, prior: Range, tokens: Tokens)
    requires Encodable(r) && Encodable(prior)
    ensures Hit(WordOf(v, priorStore, prior), DecodeSampled(WordOf(u, store, r)), tokens)
       <==> && SampledRace(u, store, r, v, priorStore, prior)
            && !OrderedBy(tokens.matrix, tokens.n, v.subgroup % OWNERS, v.epoch % EPOCHS, u.subgroup % OWNERS)
  {
    EntryDecodes(u, store, r);
    EntryDecodes(v, priorStore, prior);
    EntriesRace(u, store, r, v, priorStore, prior);
  }

  // ---------------------------------------------------------------- whole accesses

  /** A table and the reports emitted so far. */
  datatype Outcome = Outcome(table: seq<nat>, reports: seq<Diagnostic>)

  function PublishInto(table: seq<nat>, u: Setup, store: bool, r: Range, tokens: Tokens, o: Origin): (e: Outcome)
    requires 0 < u.capacity == |table|
    ensures |e.table| == |table|
  {
    var p := PublishOf(u, store, r, tokens, o);
    Outcome(table[p.slot := p.packed], if u.reporting then PublishReports(table, p) else [])
  }

  /** The publishes of consecutive ranges, each into the table that the previous one left. */
  function PublishAll(table: seq<nat>, u: Setup, store: bool, ranges: seq<Range>, tokens: Tokens,
                      o: Origin): (e: Outcome)
    requires 0 < u.capacity == |table|
    ensures |e.table| == |table|
  {
    if ranges == [] then Outcome(table, [])
    else
      var k := |ranges| - 1;
      var before := PublishAll(table, u, store, ranges[..k], tokens, o);
      var last := PublishInto(before.table, u, store, ranges[k], tokens, o);
      Outcome(last.table, before.reports + last.reports)
  }

  lemma PublishOneMore(table: seq<nat>, u: Setup, store: bool, ranges: seq<Range>, r: Range, tokens: Tokens, o: Origin)
    requires 0 < u.capacity == |table|
    ensures var before := PublishAll(table, u, store, ranges, tokens, o);
            var last := PublishInto(before.table, u, store, r, tokens, o);
            PublishAll(table, u, store, ranges + [r], tokens, o) == Outcome(last.table, before.reports + last.reports)
  {
    assert (ranges + [r])[..|ranges|] == ranges;
  }

  /** Without a diagnostic buffer no report is kept. */
  function Kept(kept: bool, reports: seq<Diagnostic>): seq<Diagnostic> { if kept then reports else [] }

  /** `now` is what publishing the ranges makes of `origin`. */
  ghost predicate Progress(now: Outcome, origin: Outcome, kept: bool, u: Setup, store: bool, done: seq<Range>,
                           tokens: Tokens, o: Origin)
    requires 0 < u.capacity == |origin.table|
  {
    var e := PublishAll(origin.table, u, store, done, tokens, o);
    now == Outcome(e.table, origin.reports + Kept(kept, e.reports))
  }

  lemma ProgressOneMore(before: Outcome, now: Outcome, origin: Outcome, kept: bool, u: Setup, store: bool,
                        done: seq<Range>, r: Range, tokens: Tokens, o: Origin)
    requires 0 < u.capacity == |origin.table| && Progress(before, origin, kept, u, store, done, tokens, o)
    requires var e := PublishInto(before.table, u, store, r, tokens, o);
             now == Outcome(e.table, before.reports + Kept(kept, e.reports))
    ensures Progress(now, origin, kept, u, store, done + [r], tokens, o)
  {
    hide PublishInto, PublishAll;
    PublishOneMore(origin.table, u, store, done, r, tokens, o);
    var e := PublishAll(origin.table, u, store, done, tokens, o);
    Associate(origin.reports, Kept(kept, e.reports), Kept(kept, PublishInto(e.table, u, store, r, tokens, o).reports));
  }

  lemma KeptJoin(history: seq<Diagnostic>, kept: bool, a: seq<Diagnostic>, b: seq<Diagnostic>)
    ensures history + Kept(kept, a) + Kept(kept, b) == history + Kept(kept, a + b) && Kept(kept, []) == []
  {
  }

  lemma Associate<T>(a: seq<T>, b: seq<T>, c: seq<T>)
    ensures a + b + c == a + (b + c)
  {
  }

  function RejectionOf(u: Setup, o: Origin): Diagnostic {
    MetadataFull(u.epoch, u.subgroup, 0, o.offset, o.bytes)
  }

  /** What one recorded access does to the table and emits. */
  function AccessOutcome(table: seq<nat>, u: Setup, selected: bool, store: bool, tokens: Tokens, o: Origin)
    : Outcome
    requires u.capacity == |table|
  {
    if o.bytes == 0 then Outcome(table, [])
    else if |table| == 0 then Outcome(table, [RejectionOf(u, o)])
    else if !selected then Outcome(table, [])
    else if !Accepted(o.offset, o.bytes) then Outcome(table, [RejectionOf(u, o)])
    else PublishAll(table, u, store, RangesOf(o.offset, o.bytes), tokens, o)
  }

  class Watchpoints {
    const generation: nat
    const subgroup: nat
    const probeCount: nat
    const reportConflicts: bool
    const subgroups: nat
    const slotHash: (nat, nat, nat) -> nat
    const stepHash: (nat, nat) -> nat
    const table: array<nat>
    const tokens: array<nat>
    const epochs: array<nat>
    const diagnostics: DiagnosticBuffer

    ghost predicate Valid()
      reads this, diagnostics, diagnostics.records
    {
      && table != tokens && table != epochs && tokens != epochs
      && (tokens.Length == 0 || tokens.Length == subgroups * subgroups)
      && diagnostics.Valid()
    }

    constructor (generation: nat, subgroup: nat, probeCount: nat, reportConflicts: bool, subgroups: nat,
                 slotHash: (nat, nat, nat) -> nat, stepHash: (nat, nat) -> nat, table: array<nat>,
                 tokens: array<nat>, epochs: array<nat>, diagnostics: DiagnosticBuffer)
      requires table != tokens && table != epochs && tokens != epochs
      requires tokens.Length == 0 || tokens.Length == subgroups * subgroups
      requires diagnostics.Valid()
      ensures Valid() && this.table == table && this.diagnostics == diagnostics
      ensures this.generation == generation && this.subgroup == subgroup && this.probeCount == probeCount
      ensures this.reportConflicts == reportConflicts && this.subgroups == subgroups
      ensures this.slotHash == slotHash && this.stepHash == stepHash
      ensures this.tokens == tokens && this.epochs == epochs
    {
      this.generation, this.subgroup, this.probeCount := generation, subgroup, probeCount;
      this.reportConflicts, this.subgroups := reportConflicts, subgroups;
      this.slotHash, this.stepHash := slotHash, stepHash;
      this.table, this.tokens, this.epochs, this.diagnostics := table, tokens, epochs, diagnostics;
    }

    function CurrentEpoch(): nat
      reads epochs
    {
      if subgroup < epochs.Length then epochs[subgroup] else 0
    }

    function SetupNow(seed: nat): Setup
      reads epochs
    {
      Setup(generation, subgroup, CurrentEpoch(), seed, table.Length, probeCount, reportConflicts, slotHash, stepHash)
    }

    function TokensNow(): Tokens
      reads tokens
    {
      Tokens(tokens[..], subgroups)
    }

    ghost function Keeps(): bool { 0 < diagnostics.records.Length }

    /** Reports a word if it is a hit. */
    method CheckWord(word: nat, current: SampledEntry, o: Origin)
      requires Valid()
      modifies diagnostics, diagnostics.records
      ensures Valid()
      ensures diagnostics.history == old(diagnostics.history)
                + Kept(Keeps(), if Hit(word, current, TokensNow()) then [ReportOf(word, current, o)] else [])
    {
      var prior := DecodeSampled(word);
      if SampledConflict(current, prior) {
        var acquired := AcquiredPriorEpoch(tokens, subgroups, prior.owner, prior.epoch, current.owner);
        if !acquired {
          diagnostics.Emit(ReportOf(word, current, o));
        }
      }
    }

    /** The scan loop: indices step by a hash, in 32-bit arithmetic. */
    method Scan(current: SampledEntry, slot: nat, step: nat, o: Origin)
      requires Valid() && 0 < table.Length
      modifies diagnostics, diagnostics.records
      ensures Valid()
      ensures var visited := Probed(slot, step, table.Length, ProbeCount(probeCount, table.Length));
              diagnostics.history == old(diagnostics.history)
                + Kept(Keeps(), ScanReports(table[..], current, TokensNow(), visited, o))
    {
      hide ScanReports, Hit, ReportOf, ProbeIndex, Kept, DiagnosticBuffer.Valid;
      ghost var words, tokens, history := table[..], TokensNow(), diagnostics.history;
      var capacity := table.Length;
      var probes := if probeCount == 0 then capacity else probeCount;
      if probes > capacity {
        probes := capacity;
      }
      ghost var visited := Probed(slot, step, capacity, probes);
      var probe := 0;
      NoReports(words, current, tokens, o);
      KeptJoin(history, Keeps(), [], []);
      assert visited[..0] == [];
      while probe < probes
        invariant 0 <= probe <= probes && Valid() && table[..] == words && TokensNow() == tokens
        invariant diagnostics.history
               == history + Kept(Keeps(), ScanReports(words, current, tokens, visited[..probe], o))
      {
        var index := ProbeIndex(slot, probe, step, capacity);
        assert visited[..probe + 1] == visited[..probe] + [index];
        ReportsGrow(words, current, tokens, visited[..probe], index, o);
        KeptJoin(history, Keeps(), ScanReports(words, current, tokens, visited[..probe], o),
                 if Hit(words[index], current, tokens) then [ReportOf(words[index], current, o)] else []);
        CheckWord(table[index], current, o);
        probe := probe + 1;
      }
      assert visited[..probes] == visited;
    }

    /** Check of the displaced word, then the scan. */
    method CheckAndScan(prior: nat, current: SampledEntry, slot: nat, step: nat, o: Origin)
      requires Valid() && 0 < table.Length
      modifies diagnostics, diagnostics.records
      ensures Valid()
      ensures var visited := Probed(slot, step, table.Length, ProbeCount(probeCount, table.Length));
              diagnostics.history == old(diagnostics.history)
                + Kept(Keeps(), (if Hit(prior, current, TokensNow()) then [ReportOf(prior, current, o)] else [])
                                + ScanReports(table[..], current, TokensNow(), visited, o))
    {
      hide Probed, Hit, ReportOf, ScanReports, Kept, SampledConflict, DecodeSampled, DiagnosticBuffer.Valid;
      ghost var tokens, words, history := TokensNow(), table[..], diagnostics.history;
      CheckWord(prior, current, o);
      assert TokensNow() == tokens && table[..] == words;
      Scan(current, slot, step, o);
      assert TokensNow() == tokens && table[..] == words;
      KeptJoin(history, Keeps(), if Hit(prior, current, tokens) then [ReportOf(prior, current, o)] else [],
               ScanReports(words, current, tokens,
                           Probed(slot, step, table.Length, ProbeCount(probeCount, table.Length)), o));
    }

    /** Exchange, check the displaced word, scan. */
    method PublishWord(packed: nat, slot: nat, step: nat, o: Origin)
      requires Valid() && slot < table.Length
      modifies table, diagnostics, diagnostics.records
      ensures Valid() && table[..] == old(table[..])[slot := packed]
      ensures var p := Publish(packed, slot, Probed(slot, step, table.Length, ProbeCount(probeCount, table.Length)),
                               TokensNow(), o);
              diagnostics.history == old(diagnostics.history)
                + Kept(Keeps(), if reportConflicts then PublishReports(old(table[..]), p) else [])
    {
      hide DecodeSampled, Probed, Hit, ReportOf, ScanReports, PublishReports;
      ghost var p, before := Publish(packed, slot,
                                     Probed(slot, step, table.Length, ProbeCount(probeCount, table.Length)),
                                     TokensNow(), o), table[..];
      var current := DecodeSampled(packed);
      var priorValue := table[slot];
      table[slot] := packed;
      assert table[..] == before[slot := packed];
      if reportConflicts {
        CheckAndScan(priorValue, current, slot, step, o);
        ReportsJoin(before, p);
      }
    }

    /** Publishes one range. */
    method RecordRange(store: bool, r: Range, seed: nat, o: Origin)
      requires Valid() && 0 < table.Length
      modifies table, diagnostics, diagnostics.records
      ensures Valid()
      ensures var e := PublishInto(old(table[..]), SetupNow(seed), store, r, TokensNow(), o);
              && table[..] == e.table
              && diagnostics.history == old(diagnostics.history) + Kept(Keeps(), e.reports)
    {
      var epoch := CurrentEpoch();
      var packed := PackSampled(KindOf(store), subgroup, epoch, generation, r.start, r.count, false);
      var slot := MapIndex(slotHash(r.start, epoch, generation), table.Length);
      var step := ProbeStep(stepHash(seed, r.start), table.Length);
      PublishWord(packed, slot, step, o);
    }

    ghost function State(): Outcome
      reads table, diagnostics
    {
      Outcome(table[..], diagnostics.history)
    }

    /** One more chunk of an access whose earlier chunks are `done`. */
    method RecordChunk(store: bool, r: Range, seed: nat, o: Origin, ghost origin: Outcome, ghost done: seq<Range>)
      requires Valid() && 0 < table.Length == |origin.table|
      requires Progress(State(), origin, Keeps(), SetupNow(seed), store, done, TokensNow(), o)
      modifies table, diagnostics, diagnostics.records
      ensures Valid()
      ensures Progress(State(), origin, Keeps(), SetupNow(seed), store, done + [r], TokensNow(), o)
    {
      hide PublishInto, PublishAll;
      ghost var before, u, tokens := State(), SetupNow(seed), TokensNow();
      RecordRange(store, r, seed, o);
      ProgressOneMore(before, State(), origin, Keeps(), u, store, done, r, tokens, o);
    }

    /** The chunk loop. */
    method RecordCells(store: bool, first: nat, end: nat, seed: nat, o: Origin)
      requires Valid() && 0 < table.Length && first <= end
      modifies table, diagnostics, diagnostics.records
      ensures Valid()
      ensures Progress(State(), old(State()), Keeps(), SetupNow(seed), store, Chunks(first, end), TokensNow(), o)
    {
      hide PublishInto;
      ghost var done: seq<Range>, origin := [], State();
      var start := first;
      while start < end
        invariant start <= end && Valid()
        invariant done + Chunks(start, end) == Chunks(first, end)
        invariant Progress(State(), origin, Keeps(), SetupNow(seed), store, done, TokensNow(), o)
      {
        var remaining := end - start;
        var chunk := if remaining > MAX_COUNT then MAX_COUNT else remaining;
        NextChunk(done, first, start, end);
        RecordChunk(store, Range(start, chunk), seed, o, origin, done);
        done := done + [Range(start, chunk)];
        start := start + chunk;
      }
      assert done == Chunks(first, end);
    }

    /** Records one access: nothing, a rejection, or one publish for every chunk, each seeing the table that
        the previous one left; whether or not conflicts are to be reported and reports can be kept. */
    method RecordAccess(selected: bool, store: bool, seed: nat, o: Origin)
      requires Valid()
      modifies table, diagnostics, diagnostics.records
      ensures Valid()
      ensures var u := Setup(generation, subgroup, if subgroup < epochs.Length then epochs[subgroup] else 0, seed,
                             table.Length, probeCount, reportConflicts, slotHash, stepHash);
              var outcome := AccessOutcome(old(table[..]), u, selected, store, Tokens(tokens[..], subgroups), o);
              && table[..] == outcome.table
              && diagnostics.history == old(diagnostics.history)
                                      + if 0 < diagnostics.records.Length then outcome.reports else []
    {
      if o.bytes == 0 {
        return;
      }
      if table.Length == 0 {
        diagnostics.Emit(RejectionOf(SetupNow(seed), o));
        return;
      }
      if !selected {
        return;
      }
      var start := StartCell(o.offset);
      var end := EndCell(o.offset, o.bytes);
      if start > MAX_START || end > MAX_START + 1 {
        diagnostics.Emit(RejectionOf(SetupNow(seed), o));
        return;
      }
      RecordCells(store, start, end, seed, o);
    }
  }

  lemma NoReports(table: seq<nat>, current: SampledEntry, tokens: Tokens, o: Origin)
    ensures ScanReports(table, current, tokens, [], o) == []
  {
  }

  /** One more visited index adds its report, if any. */
  lemma ReportsGrow(table: seq<nat>, current: SampledEntry, tokens: Tokens, visited: seq<nat>, index: nat, o: Origin)
    requires (forall p :: 0 <= p < |visited| ==> visited[p] < |table|) && index < |table|
    ensures ScanReports(table, current, tokens, visited + [index], o)
         == ScanReports(table, current, tokens, visited, o)
          + if Hit(table[index], current, tokens) then [ReportOf(table[index], current, o)] else []
  {
    assert (visited + [index])[..|visited|] == visited;
    var hits := ScanHits(table, current, tokens, visited);
    if Hit(table[index], current, tokens) {
      ReportsAppend(table, hits, index, current, o);
    } else {
      assert hits + [] == hits;
    }
  }

  lemma ReportsAppend(table: seq<nat>, hits: seq<nat>, index: nat, current: SampledEntry, o: Origin)
    requires (forall p :: 0 <= p < |hits| ==> hits[p] < |table|) && index < |table|
    ensures Reports(At(table, hits + [index]), current, o)
         == Reports(At(table, hits), current, o) + [ReportOf(table[index], current, o)]
  {
  }

  lemma ReportsPrepend(table: seq<nat>, hits: seq<nat>, index: nat, current: SampledEntry, o: Origin)
    requires (forall p :: 0 <= p < |hits| ==> hits[p] < |table|) && index < |table|
    ensures Reports(At(table, [index] + hits), current, o)
         == [ReportOf(table[index], current, o)] + Reports(At(table, hits), current, o)
  {
  }

  /** The displaced report and the scan's reports, as one list over the table before the publish. */
  lemma ReportsJoin(table: seq<nat>, p: Publish)
    requires FitsTable(table, p)
    ensures var current, after := DecodeSampled(p.packed), table[p.slot := p.packed];
            PublishReports(table, p)
            == (if Hit(table[p.slot], current, p.tokens) then [ReportOf(table[p.slot], current, p.origin)] else [])
             + ScanReports(after, current, p.tokens, p.visited, p.origin)
  {
    var current, after := DecodeSampled(p.packed), table[p.slot := p.packed];
    var hits := ScanHits(after, current, p.tokens, p.visited);
    ScanSkipsOwnSlot(table, p);
    assert At(after, hits) == At(table, hits) by {
      forall k | 0 <= k < |hits| ensures after[hits[k]] == table[hits[k]] {
        assert hits[k] in hits;
      }
    }
    if Hit(table[p.slot], current, p.tokens) {
      ReportsPrepend(table, hits, p.slot, current, p.origin);
    } else {
      assert [] + hits == hits;
    }
  }
}
