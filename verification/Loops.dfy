/** What a loop does, listed: the iterations' lists one after the other. */
module Loops {
  import opened Arith

  function Flat<T>(n: nat, f: nat -> seq<T>): seq<T> {
    if n == 0 then [] else Flat(n - 1, f) + f(n - 1)
  }

  lemma {:induction false} FlatHas<T>(n: nat, f: nat -> seq<T>, x: T)
    ensures x in Flat(n, f) <==> exists i: nat :: i < n && x in f(i)
  {
    if n != 0 { FlatHas(n - 1, f, x); }
  }

  /** A body that does not depend on the iteration. */
  function Repeat<T>(n: nat, body: seq<T>): seq<T> { if n == 0 then [] else Repeat(n - 1, body) + body }

  lemma {:induction false} RepeatHas<T>(n: nat, body: seq<T>, x: T)
    requires 0 < n
    ensures x in Repeat(n, body) <==> x in body
  {
    if n == 1 {
      assert Repeat(1, body) == Repeat(0, body) + body;
    } else {
      RepeatHas(n - 1, body, x);
    }
  }

  lemma {:induction false} RepeatAt<T>(n: nat, body: seq<T>, iteration: nat, offset: nat)
    requires iteration < n && offset < |body|
    ensures iteration * |body| + offset < |Repeat(n, body)|
    ensures Repeat(n, body)[iteration * |body| + offset] == body[offset]
  {
    RepeatLength(n - 1, body);
    if iteration < n - 1 {
      RepeatAt(n - 1, body, iteration, offset);
    } else {
      assert iteration * |body| == (n - 1) * |body|;
    }
  }

  /** Iterations of equal length. */
  lemma {:induction false} FlatLength<T>(n: nat, f: nat -> seq<T>, length: nat)
    requires forall i: nat :: i < n ==> |f(i)| == length
    ensures |Flat(n, f)| == n * length
  {
    if n != 0 {
      FlatLength(n - 1, f, length);
      assert n * length == (n - 1) * length + length;
    }
  }

  /** The list at an index: that of its iteration. */
  lemma {:induction false} FlatAt<T>(n: nat, f: nat -> seq<T>, length: nat, iteration: nat, offset: nat)
    requires (forall i: nat :: i < n ==> |f(i)| == length) && iteration < n && offset < length
    ensures iteration * length + offset < |Flat(n, f)|
    ensures Flat(n, f)[iteration * length + offset] == f(iteration)[offset]
  {
    FlatLength(n - 1, f, length);
    if iteration < n - 1 {
      FlatAt(n - 1, f, length, iteration, offset);
    } else {
      assert iteration * length == (n - 1) * length;
    }
  }

  lemma {:induction false} RepeatLength<T>(n: nat, body: seq<T>)
    ensures |Repeat(n, body)| == n * |body|
  {
    if n != 0 {
      RepeatLength(n - 1, body);
      assert n * |body| == (n - 1) * |body| + |body|;
    }
  }
}
