/** The exact-shadow backend of the device context, called by one thread at a time. */
module ExactShadow {
  import opened ShadowWords
  import opened ShadowHistory
  import opened Diagnostics
  import opened Arith

  /** A checked touch: its index in the history and the token matrix the check saw. */
  datatype Check = Check(touch: nat, tokens: seq<nat>)

  ghost predicate ChecksFit(history: seq<Touch>, checks: seq<Check>) {
    |checks| == |history| && forall j :: 0 <= j < |checks| ==> checks[j].touch == j
  }

  ghost function ConflictOf(history: seq<Touch>, j: nat): Diagnostic
    requires j < |history| && 0 <= LastTouch(history[..j], history[j].cell)
  {
    var prior, current := history[LastTouch(history[..j], history[j].cell)], history[j];
    AccessConflict(current.epoch % EPOCHS, prior.subgroup % OWNERS, current.subgroup % OWNERS,
                   current.cell * GRANULE, current.access.offset, GRANULE, current.access.bytes,
                   prior.access.site % SITES, current.access.site % SITES)
  }

  ghost function ConflictAt(history: seq<Touch>, j: nat, tokens: seq<nat>, n: nat): seq<Diagnostic>
    requires j < |history|
  {
    if ToReport(history, j, tokens, n) then [ConflictOf(history, j)] else []
  }

  /** The conflicts among the first `k` touches, in order. */
  ghost function ConflictsUpTo(history: seq<Touch>, checks: seq<Check>, n: nat, k: nat): seq<Diagnostic>
    requires ChecksFit(history, checks) && k <= |history|
  {
    if k == 0 then []
    else ConflictsUpTo(history, checks, n, k - 1) + ConflictAt(history, k - 1, checks[k - 1].tokens, n)
  }

  lemma {:induction false} ConflictsAppend(history: seq<Touch>, checks: seq<Check>, n: nat, t: Touch, c: Check, k: nat)
    requires ChecksFit(history, checks) && ChecksFit(history + [t], checks + [c]) && k <= |history|
    ensures ConflictsUpTo(history + [t], checks + [c], n, k) == ConflictsUpTo(history, checks, n, k)
  {
    if 0 < k {
      ConflictsAppend(history, checks, n, t, c, k - 1);
      PrefixKept(history, t, k - 1);
      assert (history + [t])[k - 1] == history[k - 1];
      var i := LastTouch(history[..k - 1], history[k - 1].cell);
      assert 0 <= i ==> (history + [t])[i] == history[i];
    }
  }

  /** The fields of an emitted diagnostic are those of the two touches. */
  lemma ReportFields(generation: nat, initial: seq<nat>, history: seq<Touch>, j: nat)
    requires j < |history| && history[j].cell < |initial| && 0 <= LastTouch(history[..j], history[j].cell)
    ensures var prior := DecodeExact(WordAt(generation, initial, history[..j], history[j].cell));
            var current := DecodeExact(WordOf(generation, history[j]));
            AccessConflict(current.epoch, prior.owner, current.owner, history[j].cell * GRANULE,
                           history[j].access.offset,
                           GRANULE, history[j].access.bytes, prior.site, current.site) == ConflictOf(history, j)
  {
    var current := history[j];
    var prior := history[LastTouch(history[..j], current.cell)];
    ExactRoundTrip(KindOf(current.access.store), current.subgroup, current.epoch, generation, current.access.site);
    ExactRoundTrip(KindOf(prior.access.store), prior.subgroup, prior.epoch, generation, prior.access.site);
  }

  /** The access conflicts among all diagnostics. */
  ghost function Conflicts(reports: seq<Diagnostic>): (r: seq<Diagnostic>)
    ensures |r| <= |reports|
  {
    if reports == [] then []
    else
      var last := reports[|reports| - 1];
      Conflicts(reports[..|reports| - 1]) + if last.AccessConflict? then [last] else []
  }

  lemma ConflictsEmit(reports: seq<Diagnostic>, d: Diagnostic)
    ensures Conflicts(reports + [d]) == Conflicts(reports) + if d.AccessConflict? then [d] else []
  {
    assert (reports + [d])[..|reports|] == reports;
  }

  /** What one exchange and its check add to the expected conflicts. */
  lemma TouchAdds(generation: nat, initial: seq<nat>, history: seq<Touch>, checks: seq<Check>, n: nat, t: Touch,
                  tokens: seq<nat>)
    requires Foreign(generation, initial) && t.cell < |initial| && ChecksFit(history, checks)
    ensures var prior := DecodeExact(WordAt(generation, initial, history, t.cell));
            var current := DecodeExact(WordOf(generation, t));
            var history', checks' := history + [t], checks + [Check(|history|, tokens)];
            && ChecksFit(history', checks')
            && ConflictsUpTo(history', checks', n, |history'|)
               == ConflictsUpTo(history, checks, n, |history|)
                + if ExactConflict(current, prior) && !OrderedBy(tokens, n, prior.owner, prior.epoch, current.owner)
                  then [AccessConflict(current.epoch, prior.owner, current.owner, t.cell * GRANULE, t.access.offset,
                                       GRANULE, t.access.bytes, prior.site, current.site)]
                  else []
  {
    var j := |history|;
    var history', checks' := history + [t], checks + [Check(j, tokens)];
    assert history'[..j] == history;
    CheckMeansToReport(generation, initial, history', j, tokens, n);
    ConflictsAppend(history, checks, n, t, Check(j, tokens), j);
    if ToReport(history', j, tokens, n) { ReportFields(generation, initial, history', j); }
  }

  /** The report names touch i as the first access and touch j as the second. */
  ghost predicate Names(d: Diagnostic, history: seq<Touch>, i: nat, j: nat) {
    && i < j < |history|
    && d == AccessConflict(history[j].epoch % 0x400, history[i].subgroup % 0x400, history[j].subgroup % 0x400,
                           history[j].cell * 4, history[j].access.offset, 4, history[j].access.bytes,
                           history[i].access.site % 0x20_0000, history[j].access.site % 0x20_0000)
  }

  /** Touches i and j are successive touches of a cell that race, and the tokens of j's check do not order them. */
  ghost predicate ToBeNamed(history: seq<Touch>, checks: seq<Check>, n: nat, i: nat, j: nat) {
    && j < |checks| && Neighbours(history, i, j) && Races(history[i], history[j])
    && !Suppressed(checks[j].tokens, n, history[i], history[j])
  }

  ghost predicate NamedBefore(d: Diagnostic, history: seq<Touch>, checks: seq<Check>, n: nat, k: nat) {
    exists i: nat, j: nat :: j < k && ToBeNamed(history, checks, n, i, j) && Names(d, history, i, j)
  }

  /** What the expected conflicts are: one for each pair of successive, racing, unordered touches of a cell, naming
      the earlier one first. */
  lemma {:induction false} ConflictsName(history: seq<Touch>, checks: seq<Check>, n: nat, k: nat, d: Diagnostic)
    requires ChecksFit(history, checks) && k <= |history|
    ensures d in ConflictsUpTo(history, checks, n, k) <==> NamedBefore(d, history, checks, n, k)
  {
    hide ToBeNamed, Names, ConflictAt, Neighbours;
    if 0 < k {
      ConflictsName(history, checks, n, k - 1, d);
      LastName(history, checks, n, k - 1, d);
    }
  }

  lemma LastName(history: seq<Touch>, checks: seq<Check>, n: nat, j: nat, d: Diagnostic)
    requires ChecksFit(history, checks) && j < |history|
    ensures d in ConflictAt(history, j, checks[j].tokens, n)
       <==> exists i: nat :: ToBeNamed(history, checks, n, i, j) && Names(d, history, i, j)
  {
    var last := LastTouch(history[..j], history[j].cell);
    if 0 <= last {
      LastTouchIsNeighbour(history, j);
    }
    forall i: nat | Neighbours(history, i, j) ensures i == last {
      NeighbourIsLastTouch(history, i, j);
    }
    if ToReport(history, j, checks[j].tokens, n) {
      assert ToBeNamed(history, checks, n, last, j) && Names(ConflictOf(history, j), history, last, j);
    }
  }

  class Detector {
    const generation: nat
    const subgroups: nat
    const stored: nat
    const shadow: array<nat>
    const tokens: array<nat>
    const epochs: array<nat>
    const diagnostics: DiagnosticBuffer

    ghost const initial: seq<nat>
    ghost var history: seq<Touch>
    ghost var checks: seq<Check>
    ghost var rejected: nat

    ghost predicate Valid()
      reads this, shadow, tokens, epochs, diagnostics, diagnostics.records
    {
      && shadow != tokens && shadow != epochs && tokens != epochs
      && |initial| == shadow.Length && Foreign(generation, initial)
      && (tokens.Length == 0 || tokens.Length == subgroups * subgroups)
      && epochs.Length == subgroups && stored <= subgroups
      && (forall c :: 0 <= c < shadow.Length ==> shadow[c] == WordAt(generation, initial, history, c))
      && (forall j :: 0 <= j < |history| ==> history[j].cell < shadow.Length)
      && ChecksFit(history, checks)
      && diagnostics.Valid()
    }

    /** The conflict reports are exactly those the history calls for, in order; all other reports are
        rejected accesses. */
    ghost predicate Faithful()
      requires Valid()
      reads this, shadow, tokens, epochs, diagnostics, diagnostics.records
    {
      0 < diagnostics.records.Length ==>
        && Conflicts(diagnostics.history) == ConflictsUpTo(history, checks, subgroups, |history|)
        && |diagnostics.history| == |Conflicts(diagnostics.history)| + rejected
    }

    constructor (generation: nat, subgroups: nat, stored: nat, shadow: array<nat>, tokens: array<nat>,
                 epochs: array<nat>, diagnostics: DiagnosticBuffer)
      requires shadow != tokens && shadow != epochs && tokens != epochs && Foreign(generation, shadow[..])
      requires tokens.Length == 0 || tokens.Length == subgroups * subgroups
      requires epochs.Length == subgroups && stored <= subgroups
      requires diagnostics.Valid() && diagnostics.history == []
      ensures Valid() && Faithful() && history == [] && rejected == 0 && initial == shadow[..]
      ensures this.shadow == shadow && this.diagnostics == diagnostics && this.generation == generation
      ensures this.subgroups == subgroups && this.stored == stored && this.tokens == tokens && this.epochs == epochs
    {
      this.generation, this.subgroups, this.stored := generation, subgroups, stored;
      this.shadow, this.tokens, this.epochs, this.diagnostics := shadow, tokens, epochs, diagnostics;
      this.initial := shadow[..];
      this.history, this.checks, this.rejected := [], [], 0;
    }

    function EpochOf(subgroup: nat): nat
      reads this, epochs
    {
      if subgroup < epochs.Length then epochs[subgroup] else 0
    }

    /** One exchange and its check. */
    method TouchCell(a: Access, subgroup: nat, epoch: nat, cell: nat)
      requires Valid() && Faithful() && cell < shadow.Length && Covers(a, cell)
      modifies this`history, this`checks, shadow, diagnostics, diagnostics.records
      ensures Valid() && Faithful()
      ensures history == old(history) + [Touch(subgroup, epoch, a, cell)]
      ensures checks == old(checks) + [Check(|old(history)|, tokens[..])]
    {
      hide PackExact, DecodeExact, OrderedBy, ConflictsUpTo, Conflicts;
      ghost var t := Touch(subgroup, epoch, a, cell);
      TouchAdds(generation, initial, history, checks, subgroups, t, tokens[..]);
      forall x | 0 <= x < shadow.Length
        ensures WordAt(generation, initial, history + [t], x)
             == if x == cell then WordOf(generation, t) else shadow[x]
      {
        WordAtAppend(generation, initial, history, t, x);
      }
      var packed := PackExact(KindOf(a.store), subgroup, epoch, generation, a.site);
      var current := DecodeExact(packed);
      var priorValue := shadow[cell];
      shadow[cell] := packed;
      history, checks := history + [t], checks + [Check(|history|, tokens[..])];
      var prior := DecodeExact(priorValue);
      if ExactConflict(current, prior) {
        var acquired := AcquiredPriorEpoch(tokens, subgroups, prior.owner, prior.epoch, current.owner);
        if !acquired {
          EmitConflict(prior, current, a, cell);
        }
      }
    }

    method EmitConflict(prior: ExactEntry, current: ExactEntry, a: Access, cell: nat)
      requires diagnostics.Valid()
      modifies diagnostics, diagnostics.records
      ensures diagnostics.Valid()
      ensures 0 < diagnostics.records.Length ==>
                && |diagnostics.history| == |old(diagnostics.history)| + 1
                && Conflicts(diagnostics.history) == Conflicts(old(diagnostics.history))
                     + [AccessConflict(current.epoch, prior.owner, current.owner, cell * GRANULE, a.offset,
                                       GRANULE, a.bytes, prior.site, current.site)]
    {
      var d := AccessConflict(current.epoch, prior.owner, current.owner, cell * GRANULE, a.offset,
                              GRANULE, a.bytes, prior.site, current.site);
      ConflictsEmit(diagnostics.history, d);
      diagnostics.Emit(d);
    }

    method Reject(a: Access, subgroup: nat)
      requires Valid() && Faithful()
      modifies this`rejected, diagnostics, diagnostics.records
      ensures Valid() && Faithful() && rejected == old(rejected) + 1
      ensures 0 < diagnostics.records.Length ==>
                diagnostics.history == old(diagnostics.history)
                  + [MetadataFull(if subgroup < epochs.Length then epochs[subgroup] else 0, subgroup, 0, a.offset,
                                  a.bytes)]
    {
      var d := MetadataFull(EpochOf(subgroup), subgroup, 0, a.offset, a.bytes);
      ConflictsEmit(diagnostics.history, d);
      diagnostics.Emit(d);
      rejected := rejected + 1;
    }

    /** Records one access: a touch of each covered cell, in order. Accesses that do not fit the
        shadow are reported and leave every word alone; empty accesses do nothing. */
    method RecordAccess(a: Access, subgroup: nat)
      requires Valid() && Faithful()
      modifies this`history, this`checks, this`rejected, shadow, diagnostics, diagnostics.records
      ensures Valid() && Faithful()
      ensures history == old(history) +
                if a.bytes == 0 || shadow.Length <= LastCell(a) then []
                else TouchesOf(a, subgroup, if subgroup < epochs.Length then epochs[subgroup] else 0, FirstCell(a),
                               LastCell(a) + 1)
      ensures rejected == old(rejected) + if a.bytes != 0 && shadow.Length <= LastCell(a) then 1 else 0
      ensures a.bytes != 0 && shadow.Length <= LastCell(a) && 0 < diagnostics.records.Length ==>
                diagnostics.history == old(diagnostics.history)
                  + [MetadataFull(if subgroup < epochs.Length then epochs[subgroup] else 0, subgroup, 0, a.offset,
                                  a.bytes)]
      ensures a.bytes == 0 ==> diagnostics.history == old(diagnostics.history)
    {
      if a.bytes == 0 {
        return;
      }
      var lastCell := LastCell(a);
      if lastCell >= shadow.Length {
        Reject(a, subgroup);
        return;
      }
      var epoch := EpochOf(subgroup);
      var cell := FirstCell(a);
      while cell <= lastCell
        invariant FirstCell(a) <= cell <= lastCell + 1
        invariant Valid() && Faithful() && rejected == old(rejected)
        invariant history == old(history) + TouchesOf(a, subgroup, epoch, FirstCell(a), cell)
      {
        TouchCell(a, subgroup, epoch, cell);
        assert TouchesOf(a, subgroup, epoch, FirstCell(a), cell + 1)
            == TouchesOf(a, subgroup, epoch, FirstCell(a), cell) + [Touch(subgroup, epoch, a, cell)];
        cell := cell + 1;
      }
    }

    /** Thread 0's loop between the two halves of a barrier. */
    method CloseEpoch()
      requires Valid() && Faithful()
      modifies epochs
      ensures Valid() && Faithful() && history == old(history)
      ensures forall g :: 0 <= g < epochs.Length ==> epochs[g] == old(epochs[g]) + (if g < stored then 1 else 0)
    {
      var i := 0;
      while i < stored
        invariant 0 <= i <= stored
        invariant forall g :: 0 <= g < epochs.Length ==> epochs[g] == old(epochs[g]) + (if g < i then 1 else 0)
      {
        epochs[i] := epochs[i] + 1;
        i := i + 1;
      }
    }
  }
}
