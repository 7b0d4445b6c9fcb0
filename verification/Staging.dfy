/** Cooperative staging of one key tile: 64 threads copy fragments from global memory into one of two
    shared buffers, each thread striding through the elements of its own residue. */
module Staging {
  import opened AttentionSchedule

  function Elements(st: nat): nat { FRAGMENTS * st * WAVE }

  /** The loop body's decomposition of a linear element number. */
  function LaneOf(linear: nat): nat { linear % WAVE }

  function SubtileOf(st: nat, linear: nat): nat
    requires 0 < st
  {
    linear / WAVE % st
  }

  function FragmentOf(st: nat, linear: nat): nat
    requires 0 < st
  {
    linear / WAVE / st
  }

  function SharedIndex(st: nat, buffer: nat, linear: nat): nat
    requires 0 < st
  {
    FragmentIndex(st, buffer, FragmentOf(st, linear), SubtileOf(st, linear), LaneOf(linear))
  }

  function GlobalIndex(st: nat, tile: nat, fragment: nat, subtile: nat, lane: nat): nat {
    ((tile * st + subtile) * FRAGMENTS + fragment) * WAVE + lane
  }

  function SourceIndex(st: nat, tile: nat, linear: nat): nat
    requires 0 < st
  {
    GlobalIndex(st, tile, FragmentOf(st, linear), SubtileOf(st, linear), LaneOf(linear))
  }

  /** Where a buffer begins in the shared array. */
  function Base(st: nat, buffer: nat): nat { if buffer == 0 then 0 else Elements(st) }

  /** Linear numbers enumerate a buffer without gaps. */
  lemma SharedIndexIsLinear(st: nat, buffer: nat, linear: nat)
    requires Candidate(st) && buffer < 2 && linear < Elements(st)
    ensures SharedIndex(st, buffer, linear) == Base(st, buffer) + linear
    ensures FragmentOf(st, linear) < FRAGMENTS && SubtileOf(st, linear) < st && LaneOf(linear) < WAVE
  {
    if st == 1 { } else { }
  }

  /** Every (fragment, subtile, lane) has its linear number. */
  lemma LinearOf(st: nat, buffer: nat, fragment: nat, subtile: nat, lane: nat)
    requires Candidate(st) && buffer < 2 && fragment < FRAGMENTS && subtile < st && lane < WAVE
    ensures var linear := (fragment * st + subtile) * WAVE + lane;
            && linear < Elements(st)
            && FragmentOf(st, linear) == fragment && SubtileOf(st, linear) == subtile && LaneOf(linear) == lane
            && FragmentIndex(st, buffer, fragment, subtile, lane) == Base(st, buffer) + linear
  {
    if st == 1 { } else { }
  }

  lemma SourceInRange(st: nat, tile: nat, linear: nat, n: nat)
    requires Candidate(st) && linear < Elements(st) && (tile + 1) * Elements(st) <= n
    ensures SourceIndex(st, tile, linear) < n
  {
    if st == 1 { } else { }
  }

  /** The global fragment that the loop copies for a linear number. */
  function Source<T>(st: nat, tile: nat, global: seq<T>, linear: nat): T
    requires Candidate(st) && linear < Elements(st) && (tile + 1) * Elements(st) <= |global|
  {
    SourceInRange(st, tile, linear, |global|);
    global[SourceIndex(st, tile, linear)]
  }

  /** Element `i` of the shared array lies in the buffer of this tile. */
  predicate Active(st: nat, tile: nat, i: int) {
    Base(st, tile % 2) <= i < Base(st, tile % 2) + Elements(st)
  }

  /** One thread's loop: of the active buffer it writes exactly the elements of its residue, each from the
      tile's fragments, and it touches nothing else. */
  method StageThread<T>(shared: array<T>, global: seq<T>, st: nat, tile: nat, thread: nat)
    requires Candidate(st) && thread < THREADS && shared.Length == 2 * Elements(st)
    requires (tile + 1) * Elements(st) <= |global|
    modifies shared
    ensures forall i :: 0 <= i < shared.Length ==>
              shared[i] == if Active(st, tile, i) && (i - Base(st, tile % 2)) % THREADS == thread
                           then Source(st, tile, global, i - Base(st, tile % 2)) else old(shared[i])
  {
    var buffer := tile % 2;
    var linear := thread;
    while linear < Elements(st)
      invariant thread <= linear && linear % THREADS == thread
      invariant forall i :: 0 <= i < shared.Length ==>
                  shared[i] == if Active(st, tile, i) && (i - Base(st, buffer)) % THREADS == thread
                                  && i - Base(st, buffer) < linear
                               then Source(st, tile, global, i - Base(st, buffer)) else old(shared[i])
    {
      SharedIndexIsLinear(st, buffer, linear);
      SourceInRange(st, tile, linear, |global|);
      NextOfResidue(linear, thread);
      shared[SharedIndex(st, buffer, linear)] := global[SourceIndex(st, tile, linear)];
      linear := linear + THREADS;
    }
  }

  /** Nothing of a residue lies strictly between an element and the next one. */
  lemma NextOfResidue(linear: nat, thread: nat)
    requires linear % THREADS == thread
    ensures (linear + THREADS) % THREADS == thread
    ensures forall x: nat :: x % THREADS == thread && linear < x ==> linear + THREADS <= x
  {
  }

  // ---------------------------------------------------------------- all threads, interleaved

  /** `next` is every thread's loop variable; `written` (auxiliary) the elements stored so far. */
  datatype Stage<T> = Stage(shared: seq<T>, next: seq<nat>, written: seq<nat>)

  ghost predicate Fits<T>(st: nat, tile: nat, global: seq<T>, s: Stage<T>) {
    && Candidate(st) && |s.shared| == 2 * Elements(st) && |s.next| == THREADS
    && (tile + 1) * Elements(st) <= |global|
  }

  ghost function StageStart<T>(before: seq<T>): Stage<T> {
    Stage(before, seq(THREADS, t requires 0 <= t < THREADS => t), [])
  }

  ghost function StageStep<T>(st: nat, tile: nat, global: seq<T>, s: Stage<T>, thread: nat): (s': Stage<T>)
    requires Fits(st, tile, global, s) && thread < THREADS
    ensures Fits(st, tile, global, s')
  {
    var linear := s.next[thread];
    if linear < Elements(st) then
      SharedIndexIsLinear(st, tile % 2, linear);
      SourceInRange(st, tile, linear, |global|);
      Stage(s.shared[SharedIndex(st, tile % 2, linear) := global[SourceIndex(st, tile, linear)]],
            s.next[thread := linear + THREADS], s.written + [linear])
    else s
  }

  ghost function StageRun<T>(st: nat, tile: nat, global: seq<T>, s: Stage<T>, order: seq<nat>): (s': Stage<T>)
    requires Fits(st, tile, global, s) && forall i :: 0 <= i < |order| ==> order[i] < THREADS
    ensures Fits(st, tile, global, s')
    decreases |order|
  {
    if order == [] then s else StageRun(st, tile, global, StageStep(st, tile, global, s, order[0]), order[1..])
  }

  /** Every thread has left its loop. */
  ghost predicate Finished<T>(st: nat, s: Stage<T>) {
    forall t :: 0 <= t < |s.next| ==> Elements(st) <= s.next[t]
  }

  ghost predicate Done<T>(s: Stage<T>, x: int)
    requires |s.next| == THREADS
  {
    0 <= x < s.next[x % THREADS]
  }

  ghost predicate CellsInv<T(!new)>(st: nat, tile: nat, global: seq<T>, before: seq<T>, s: Stage<T>)
    requires Fits(st, tile, global, s) && |before| == |s.shared|
  {
    forall i :: 0 <= i < |s.shared| ==>
      s.shared[i] == if Active(st, tile, i) && Done(s, i - Base(st, tile % 2))
                     then Source(st, tile, global, i - Base(st, tile % 2)) else before[i]
  }

  ghost predicate WrittenInv<T>(st: nat, s: Stage<T>)
    requires |s.next| == THREADS
  {
    && (forall x: nat :: x in s.written <==> x < Elements(st) && Done(s, x))
    && (forall i, j :: 0 <= i < j < |s.written| ==> s.written[i] != s.written[j])
  }

  ghost predicate StageInv<T(!new)>(st: nat, tile: nat, global: seq<T>, before: seq<T>, s: Stage<T>) {
    && Fits(st, tile, global, s) && |before| == |s.shared|
    && (forall t :: 0 <= t < THREADS ==> s.next[t] % THREADS == t)
    && CellsInv(st, tile, global, before, s)
    && WrittenInv(st, s)
  }

  /** A write makes exactly one more element done. */
  lemma DoneAfter<T>(st: nat, s: Stage<T>, s': Stage<T>, thread: nat)
    requires |s.next| == THREADS && thread < THREADS && s.next[thread] % THREADS == thread
    requires s'.next == s.next[thread := s.next[thread] + THREADS]
    ensures forall x :: Done(s', x) <==> Done(s, x) || x == s.next[thread]
    ensures !Done(s, s.next[thread])
  {
    NextOfResidue(s.next[thread], thread);
  }

  lemma StageStepKeeps<T(!new)>(st: nat, tile: nat, global: seq<T>, before: seq<T>, s: Stage<T>, thread: nat)
    requires StageInv(st, tile, global, before, s) && thread < THREADS
    ensures StageInv(st, tile, global, before, StageStep(st, tile, global, s, thread))
  {
    var linear, s' := s.next[thread], StageStep(st, tile, global, s, thread);
    if linear < Elements(st) {
      DoneAfter(st, s, s', thread);
      NextOfResidue(linear, thread);
      assert WrittenInv(st, s') by {
        assert linear !in s.written;
      }
      assert CellsInv(st, tile, global, before, s') by {
        SharedIndexIsLinear(st, tile % 2, linear);
      }
    }
  }

  lemma {:induction false} StageRunKeeps<T(!new)>(st: nat, tile: nat, global: seq<T>, before: seq<T>, s: Stage<T>,
                                                  order: seq<nat>)
    requires StageInv(st, tile, global, before, s) && forall i :: 0 <= i < |order| ==> order[i] < THREADS
    ensures StageInv(st, tile, global, before, StageRun(st, tile, global, s, order))
    decreases |order|
  {
    if order != [] {
      StageStepKeeps(st, tile, global, before, s, order[0]);
      StageRunKeeps(st, tile, global, before, StageStep(st, tile, global, s, order[0]), order[1..]);
    }
  }

  lemma StartKeeps<T(!new)>(st: nat, tile: nat, global: seq<T>, before: seq<T>)
    requires Candidate(st) && |before| == 2 * Elements(st) && (tile + 1) * Elements(st) <= |global|
    ensures StageInv(st, tile, global, before, StageStart(before))
  {
    var start := StageStart(before);
    assert forall t :: 0 <= t < THREADS ==> start.next[t] == t;
    assert forall x :: !Done(start, x);
  }

  /** Where fragment f of subtile s of a lane lies in the active buffer. */
  ghost function Place(st: nat, tile: nat, f: nat, s: nat, l: nat): nat { ((tile % 2 * 8 + f) * st + s) * 32 + l }

  /** Where it lies in the global array, the subtiles of all tiles counted through. */
  ghost function Position(subtile: nat, f: nat, l: nat): nat { 256 * subtile + 32 * f + l }

  /** Every shared fragment of the active buffer is the tile's global fragment: subtiles of all tiles follow each
      other in the global array, fragments within a subtile, lanes within a fragment. */
  ghost predicate Staged<T>(st: nat, tile: nat, global: seq<T>, shared: seq<T>) {
    forall f: nat, s: nat, l: nat :: f < 8 && s < st && l < 32 ==>
      && Place(st, tile, f, s, l) < |shared| && Position(tile * st + s, f, l) < |global|
      && shared[Place(st, tile, f, s, l)] == global[Position(tile * st + s, f, l)]
  }

  /** Staging is exact: whatever the interleaving, once every thread has left its loop each element of
      the active buffer has been written exactly once and equals its global fragment of the tile, and
      the other buffer is as before. */
  lemma StagingIsExact<T(!new)>(st: nat, tile: nat, global: seq<T>, before: seq<T>, order: seq<nat>)
    requires Candidate(st) && |before| == 2 * Elements(st) && (tile + 1) * Elements(st) <= |global|
    requires forall i :: 0 <= i < |order| ==> order[i] < THREADS
    requires Finished(st, StageRun(st, tile, global, StageStart(before), order))
    ensures var end := StageRun(st, tile, global, StageStart(before), order);
            && Staged(st, tile, global, end.shared)
            && (forall i :: 0 <= i < |end.shared| && !Active(st, tile, i) ==> end.shared[i] == before[i])
            && (forall x: nat :: x in end.written <==> x < Elements(st))
            && (forall i, j :: 0 <= i < j < |end.written| ==> end.written[i] != end.written[j])
  {
    StartKeeps(st, tile, global, before);
    StageRunKeeps(st, tile, global, before, StageStart(before), order);
    var end := StageRun(st, tile, global, StageStart(before), order);
    forall f: nat, s: nat, l: nat | f < 8 && s < st && l < 32
      ensures Place(st, tile, f, s, l) < |end.shared| && Position(tile * st + s, f, l) < |global|
      ensures end.shared[Place(st, tile, f, s, l)] == global[Position(tile * st + s, f, l)]
    {
      FinishedElement(st, tile, global, before, end, f, s, l);
    }
  }

  lemma FinishedElement<T(!new)>(st: nat, tile: nat, global: seq<T>, before: seq<T>, end: Stage<T>,
                                 f: nat, s: nat, l: nat)
    requires StageInv(st, tile, global, before, end) && Finished(st, end)
    requires f < 8 && s < st && l < 32
    ensures Place(st, tile, f, s, l) < |end.shared| && Position(tile * st + s, f, l) < |global|
    ensures end.shared[Place(st, tile, f, s, l)] == global[Position(tile * st + s, f, l)]
  {
    LinearOf(st, tile % 2, f, s, l);
    var x := (f * st + s) * WAVE + l;
    assert Done(end, x);
    SourceInRange(st, tile, x, |global|);
    assert SourceIndex(st, tile, x) == Position(tile * st + s, f, l);
    assert FragmentIndex(st, tile % 2, f, s, l) == Place(st, tile, f, s, l);
  }

  /** One global array serves both candidates: tile t of the candidate with two subtiles holds, as its subtile s,
      what tile 2t + s of the candidate with one subtile holds, fragment by fragment and lane by lane. */
  lemma BothCandidatesStageAlike<T(!new)>(t: nat, s: nat, global: seq<T>, wide: seq<T>, wideOrder: seq<nat>,
                                          narrow: seq<T>, narrowOrder: seq<nat>, f: nat, l: nat)
    requires s < 2 && f < 8 && l < 32 && |wide| == 1024 && |narrow| == 512 && (t + 1) * 512 <= |global|
    requires forall i :: 0 <= i < |wideOrder| ==> wideOrder[i] < THREADS
    requires forall i :: 0 <= i < |narrowOrder| ==> narrowOrder[i] < THREADS
    requires Finished(2, StageRun(2, t, global, StageStart(wide), wideOrder))
    requires Finished(1, StageRun(1, 2 * t + s, global, StageStart(narrow), narrowOrder))
    ensures var a := StageRun(2, t, global, StageStart(wide), wideOrder).shared;
            var b := StageRun(1, 2 * t + s, global, StageStart(narrow), narrowOrder).shared;
            && Place(2, t, f, s, l) < |a| && Place(1, 2 * t + s, f, 0, l) < |b|
            && a[Place(2, t, f, s, l)] == b[Place(1, 2 * t + s, f, 0, l)]
  {
    hide StageRun;
    StagingIsExact(2, t, global, wide, wideOrder);
    StagingIsExact(1, 2 * t + s, global, narrow, narrowOrder);
    var a := StageRun(2, t, global, StageStart(wide), wideOrder).shared;
    var b := StageRun(1, 2 * t + s, global, StageStart(narrow), narrowOrder).shared;
    assert a[Place(2, t, f, s, l)] == global[Position(t * 2 + s, f, l)];
    assert b[Place(1, 2 * t + s, f, 0, l)] == global[Position((2 * t + s) * 1 + 0, f, l)];
  }

  /** A staged tile is one consecutive piece of the global array: its element x is lane x % 32 of fragment
      x / 32 % 8 of subtile x / 256. */
  lemma StagedTileIsConsecutive<T(!new)>(st: nat, tile: nat, global: seq<T>, before: seq<T>, order: seq<nat>, x: nat)
    requires Candidate(st) && |before| == 2 * Elements(st) && (tile + 1) * Elements(st) <= |global|
    requires forall i :: 0 <= i < |order| ==> order[i] < THREADS
    requires Finished(st, StageRun(st, tile, global, StageStart(before), order)) && x < 256 * st
    ensures var shared := StageRun(st, tile, global, StageStart(before), order).shared;
            && 256 * st * tile + x < |global| && Place(st, tile, x / 32 % 8, x / 256, x % 32) < |shared|
            && shared[Place(st, tile, x / 32 % 8, x / 256, x % 32)] == global[256 * st * tile + x]
  {
    hide StageRun;
    StagingIsExact(st, tile, global, before, order);
    var f, s, l := x / 32 % 8, x / 256, x % 32;
    assert s * 256 + f * 32 + l == x;
    assert Position(tile * st + s, f, l) == 256 * st * tile + x;
  }
}
