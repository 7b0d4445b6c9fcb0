/** What the exact shadow is supposed to say about a sequence of cell touches: every word is the last
    touch of its cell, and a report belongs to a touch and its predecessor on the same cell. */
module ShadowHistory {
  import opened ShadowWords

  const GRANULE: nat := 4

  datatype Access = Access(offset: nat, bytes: nat, store: bool, site: nat)

  function FirstCell(a: Access): nat { a.offset / GRANULE }

  function LastCell(a: Access): nat
    requires 0 < a.bytes
  {
    (a.offset + a.bytes - 1) / GRANULE
  }

  predicate Covers(a: Access, cell: nat) {
    0 < a.bytes && FirstCell(a) <= cell <= LastCell(a)
  }

  /** The covered cells are the 4-byte cells of the bytes accessed. */
  lemma CoversTouched(a: Access, cell: nat)
    ensures Covers(a, cell) <==> exists byte: nat :: a.offset <= byte < a.offset + a.bytes && byte / 4 == cell
  {
    if Covers(a, cell) {
      var byte := if a.offset < cell * 4 then cell * 4 else a.offset;
      assert a.offset <= byte < a.offset + a.bytes && byte / 4 == cell;
    }
  }

  datatype Touch = Touch(subgroup: nat, epoch: nat, access: Access, cell: nat)

  /** The touches of an access, cell by cell. */
  ghost function TouchesOf(a: Access, subgroup: nat, epoch: nat, from: nat, to: nat): (r: seq<Touch>)
    requires from <= to
    ensures |r| == to - from
  {
    seq(to - from, i requires 0 <= i < to - from => Touch(subgroup, epoch, a, from + i))
  }

  function WordOf(generation: nat, t: Touch): nat {
    PackExact(KindOf(t.access.store), t.subgroup, t.epoch, generation, t.access.site)
  }

  /** The index of the last touch of `cell`, or -1. */
  function LastTouch(history: seq<Touch>, cell: nat): (i: int)
    ensures -1 <= i < |history|
    ensures 0 <= i ==> history[i].cell == cell
    ensures forall j :: i < j < |history| ==> history[j].cell != cell
  {
    if history == [] then -1
    else if history[|history| - 1].cell == cell then |history| - 1
    else LastTouch(history[..|history| - 1], cell)
  }

  /** The word a cell holds after a history that started from `initial`. */
  function WordAt(generation: nat, initial: seq<nat>, history: seq<Touch>, cell: nat): nat
    requires cell < |initial|
  {
    var i := LastTouch(history, cell);
    if i < 0 then initial[cell] else WordOf(generation, history[i])
  }

  /** Same (10-bit) epoch, different (10-bit) subgroups, at least one write. */
  predicate Races(prior: Touch, current: Touch) {
    && prior.epoch % EPOCHS == current.epoch % EPOCHS
    && prior.subgroup % OWNERS != current.subgroup % OWNERS
    && (prior.access.store || current.access.store)
  }

  predicate Suppressed(tokens: seq<nat>, n: nat, prior: Touch, current: Touch) {
    OrderedBy(tokens, n, prior.subgroup % OWNERS, prior.epoch % EPOCHS, current.subgroup % OWNERS)
  }

  lemma SmallOwner(subgroup: nat)
    requires subgroup < OWNERS
    ensures subgroup % OWNERS == subgroup
  {
  }

  /** The decoded words conflict exactly when the touches race. */
  lemma WordsConflict(generation: nat, prior: Touch, current: Touch)
    ensures ExactConflict(DecodeExact(WordOf(generation, current)), DecodeExact(WordOf(generation, prior)))
       <==> Races(prior, current)
  {
    ExactRoundTrip(KindOf(current.access.store), current.subgroup, current.epoch, generation, current.access.site);
    ExactRoundTrip(KindOf(prior.access.store), prior.subgroup, prior.epoch, generation, prior.access.site);
  }

  /** Words left by earlier launches carry another (20-bit) generation or are empty. */
  ghost predicate Foreign(generation: nat, initial: seq<nat>) {
    forall c :: 0 <= c < |initial| ==>
      DecodeExact(initial[c]).kind == EMPTY || DecodeExact(initial[c]).generation != generation % GENERATIONS
  }

  lemma ForeignNeverConflicts(generation: nat, initial: seq<nat>, cell: nat, current: Touch)
    requires Foreign(generation, initial) && cell < |initial|
    ensures !ExactConflict(DecodeExact(WordOf(generation, current)), DecodeExact(initial[cell]))
  {
    ExactRoundTrip(KindOf(current.access.store), current.subgroup, current.epoch, generation, current.access.site);
  }

  /** Whether touch `j` is to be reported: its predecessor on the cell exists, races, and was not
      acquired according to the tokens seen at the check. */
  predicate ToReport(history: seq<Touch>, j: nat, tokens: seq<nat>, n: nat)
    requires j < |history|
  {
    var i := LastTouch(history[..j], history[j].cell);
    0 <= i && Races(history[i], history[j]) && !Suppressed(tokens, n, history[i], history[j])
  }

  /** Checking the exchanged word is checking the predecessor in the history. */
  lemma CheckMeansToReport(generation: nat, initial: seq<nat>, history: seq<Touch>, j: nat, tokens: seq<nat>, n: nat)
    requires Foreign(generation, initial) && j < |history| && history[j].cell < |initial|
    ensures var prior := DecodeExact(WordAt(generation, initial, history[..j], history[j].cell));
            var current := DecodeExact(WordOf(generation, history[j]));
            ExactConflict(current, prior) && !OrderedBy(tokens, n, prior.owner, prior.epoch, current.owner)
            <==> ToReport(history, j, tokens, n)
  {
    var current := history[j];
    var i := LastTouch(history[..j], current.cell);
    ExactRoundTrip(KindOf(current.access.store), current.subgroup, current.epoch, generation, current.access.site);
    if i < 0 {
      ForeignNeverConflicts(generation, initial, current.cell, current);
    } else {
      var prior := history[i];
      WordsConflict(generation, prior, current);
      ExactRoundTrip(KindOf(prior.access.store), prior.subgroup, prior.epoch, generation, prior.access.site);
    }
  }

  /** Successive touches of one cell. */
  ghost predicate Neighbours(history: seq<Touch>, i: nat, j: nat) {
    && i < j < |history| && history[i].cell == history[j].cell
    && forall k :: i < k < j ==> history[k].cell != history[j].cell
  }

  lemma NeighbourIsLastTouch(history: seq<Touch>, i: nat, j: nat)
    requires Neighbours(history, i, j)
    ensures LastTouch(history[..j], history[j].cell) == i
  {
    assert history[..j][i] == history[i];
  }

  lemma LastTouchIsNeighbour(history: seq<Touch>, j: nat)
    requires j < |history| && 0 <= LastTouch(history[..j], history[j].cell)
    ensures Neighbours(history, LastTouch(history[..j], history[j].cell), j)
  {
    var i := LastTouch(history[..j], history[j].cell);
    assert history[..j][i] == history[i];
    forall k | i < k < j ensures history[k].cell != history[j].cell { assert history[..j][k] == history[k]; }
  }

  /** Later touches do not change what came before an index. */
  lemma PrefixKept(history: seq<Touch>, t: Touch, j: nat)
    requires j <= |history|
    ensures (history + [t])[..j] == history[..j]
  {
  }

  /** One more touch rewrites the word of its own cell only. */
  lemma WordAtAppend(generation: nat, initial: seq<nat>, history: seq<Touch>, t: Touch, cell: nat)
    requires cell < |initial|
    ensures WordAt(generation, initial, history + [t], cell)
         == if t.cell == cell then WordOf(generation, t) else WordAt(generation, initial, history, cell)
  {
    assert (history + [t])[..|history|] == history;
  }

  /** The shadow remembers one touch a cell: a read by the writer hides its write from the next reader,
      whatever the tokens, although write and last read race. */
  lemma ReadHidesWrite(g: nat, h: nat, e: nat, write: Access, read: Access, other: Access, cell: nat,
                       tokens: seq<nat>, n: nat)
    requires write.store && !read.store && !other.store && g % OWNERS != h % OWNERS
    ensures var history := [Touch(g, e, write, cell), Touch(g, e, read, cell), Touch(h, e, other, cell)];
            && Races(history[0], history[2])
            && forall j :: 0 <= j < 3 ==> !ToReport(history, j, tokens, n)
  {
    var history := [Touch(g, e, write, cell), Touch(g, e, read, cell), Touch(h, e, other, cell)];
    assert history[..0] == [] && LastTouch([], cell) == -1;
    assert LastTouch(history[..1], cell) == 0;
    assert LastTouch(history[..2], cell) == 1;
    forall j | 0 <= j < 3 ensures !ToReport(history, j, tokens, n) {
      if j == 0 { } else if j == 1 { } else { }
    }
  }
}
