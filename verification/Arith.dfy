/** Integer facts used by several modules: quotients, rows and columns, powers of two. */
module Arith {
  /** The span of a 32-bit word. */
  const TWO32: nat := 0x1_0000_0000

  const INT_MAX: nat := 0x7FFF_FFFF

  predicate PowerOfTwo(n: nat) {
    n == 1 || (1 < n && n % 2 == 0 && PowerOfTwo(n / 2))
  }

  function TwoTo(e: nat): nat { if e == 0 then 1 else 2 * TwoTo(e - 1) }

  lemma {:induction false} TwoToSum(a: nat, b: nat)
    ensures TwoTo(a + b) == TwoTo(a) * TwoTo(b)
  {
    if 0 < a {
      TwoToSum(a - 1, b);
      Associate(2, TwoTo(a - 1), TwoTo(b));
    }
  }

  lemma AtLeastFactor(d: nat, n: nat)
    requires 1 <= d
    ensures n <= d * n
  {
  }

  lemma Distribute(a: int, b: int, n: int)
    ensures (a - b) * n == a * n - b * n
  {
  }

  /** Quotient and remainder are unique. */
  lemma SplitUnique(n: nat, a: nat, r: nat, b: nat, s: nat)
    requires a * n + r == b * n + s && r < n && s < n
    ensures a == b && r == s
  {
    Distribute(a, b, n);
    Distribute(b, a, n);
    if b < a { AtLeastFactor(a - b, n); }
    if a < b { AtLeastFactor(b - a, n); }
  }

  lemma Divide(n: nat, row: nat, column: nat)
    requires column < n
    ensures (row * n + column) / n == row && (row * n + column) % n == column
  {
    var x := row * n + column;
    Recombine(x, n);
    SplitUnique(n, x / n, x % n, row, column);
  }

  /** Row-major indices stay inside the matrix and decode to their row and column. */
  ghost predicate InMatrix(n: nat, row: nat, column: nat) { 0 <= row * n + column < n * n }

  lemma RowColumn(n: nat, row: nat, column: nat)
    requires row < n && column < n
    ensures 0 <= row * n + column < n * n
    ensures (row * n + column) / n == row && (row * n + column) % n == column
  {
    Divide(n, row, column);
    AtLeastFactor(n - row, n);
    Distribute(n, row, n);
  }

  lemma Multiple(q: nat, c: nat)
    requires 0 < c
    ensures q * c % c == 0
  {
    Divide(c, q, 0);
  }

  /** Adding multiples does not change a remainder. */
  lemma Shift(x: nat, q: nat, c: nat)
    requires 0 < c
    ensures (x + q * c) % c == x % c
  {
    Recombine(x, c);
    Plus(x / c, q, c);
    Divide(c, x / c + q, x % c);
  }

  lemma Plus(a: nat, q: nat, c: nat)
    ensures (a + q) * c == a * c + q * c
  {
  }

  lemma Recombine(w: nat, d: nat)
    requires 0 < d
    ensures w == w / d * d + w % d && w % d < d
  {
  }

  lemma Same(a: int, b: int, d: int)
    requires a == b
    ensures a * d == b * d
  {
  }

  lemma Associate(a: int, b: int, c: int)
    ensures a * (b * c) == a * b * c
  {
  }

  lemma FieldBelowDigits(low: nat, a: nat, t: nat, high: nat, d: nat, m: nat)
    requires low == a * d + t && t < d && 0 < m
    ensures (low + high * (m * d)) / d % m == a % m
  {
    Associate(high, m, d);
    Plus(a, high * m, d);
    Divide(d, a + high * m, t);
    Shift(a, high, m);
  }

  /** A field of a word below the higher fields does not see them. */
  lemma FieldBelow(low: nat, high: nat, d: nat, m: nat)
    requires 0 < d && 0 < m
    ensures (low + high * (m * d)) / d % m == low / d % m
  {
    Recombine(low, d);
    FieldBelowDigits(low, low / d, low % d, high, d, m);
  }

  lemma Recompose(q: nat, e: nat, r: nat, d: nat, t: nat)
    ensures (q * e + r) * d + t == q * (e * d) + (r * d + t)
  {
    Plus(q * e, r, d);
    Associate(q, e, d);
  }

  lemma DigitsBelow(r: nat, e: nat, d: nat, t: nat)
    requires r < e && t < d
    ensures r * d + t < e * d
  {
    Plus(r, 1, d);
    Plus(r + 1, e - 1 - r, d);
  }

  lemma NestedDigits(w: nat, a: nat, q: nat, r: nat, t: nat, d: nat, e: nat)
    requires w == a * d + t && t < d && a == q * e + r && r < e
    ensures 0 < e * d && w / (e * d) == q
  {
    Same(a, q * e + r, d);
    Recompose(q, e, r, d, t);
    DigitsBelow(r, e, d, t);
    Divide(e * d, q, r * d + t);
  }

  /** Dividing twice is dividing by the product. */
  lemma Nested(w: nat, d: nat, e: nat)
    requires 0 < d && 0 < e
    ensures 0 < e * d && w / (e * d) == w / d / e
  {
    Recombine(w, d);
    Recombine(w / d, e);
    NestedDigits(w, w / d, w / d / e, w / d % e, w % d, d, e);
  }

  lemma MultipleVanishes(x: nat, r: nat, w: nat, word: nat, k: nat, c: nat)
    requires 0 < c && x == w * word + r && word == k * c
    ensures x % c == r % c
  {
    Same(word, k * c, w);
    Associate(w, k, c);
    Shift(r, w * k, c);
  }

  /** Reducing first by a multiple of the divisor changes nothing. */
  lemma RemainderOfRemainder(x: nat, word: nat, c: nat)
    requires 0 < c <= word && word % c == 0
    ensures x % word % c == x % c
  {
    Recombine(x, word);
    Recombine(word, c);
    MultipleVanishes(x, x % word, x / word, word, word / c, c);
  }
}
