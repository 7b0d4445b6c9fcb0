/** The probe sequence of the sampled scan: which table indices the 32-bit stride visits. */
module ProbeScan {
  import opened Arith

  /** `value & (count - 1)` for a power of two is `value % count`, so both branches are a remainder. */
  function MapIndex(value: nat, count: nat): nat {
    if count == 0 then 0 else value % count
  }

  /** `mixed | 1`, cut to the table. */
  function ProbeStep(mixed: nat, capacity: nat): nat {
    if capacity <= 1 then 0 else MapIndex(mixed + 1 - mixed % 2, capacity)
  }

  function ProbeIndex(slot: nat, probe: nat, step: nat, capacity: nat): (index: nat)
    ensures 0 < capacity ==> index < capacity
  {
    MapIndex((slot + probe * step) % TWO32, capacity)
  }

  function ProbeCount(configured: nat, capacity: nat): nat {
    if configured == 0 || capacity < configured then capacity else configured
  }

  function Probed(slot: nat, step: nat, capacity: nat, probes: nat): (r: seq<nat>)
    ensures |r| == probes
    ensures forall p :: 0 <= p < probes ==> r[p] == ProbeIndex(slot, p, step, capacity)
  {
    seq(probes, p requires 0 <= p < probes => ProbeIndex(slot, p, step, capacity))
  }

  ghost predicate Distinct(s: seq<nat>) {
    forall i, j :: 0 <= i < j < |s| ==> s[i] != s[j]
  }

  ghost predicate CoversTable(s: seq<nat>, capacity: nat) {
    forall i: nat :: i < capacity ==> i in s
  }

  // ---------------------------------------------------------------- arithmetic of powers of two

  /** Division by an even number, halved. */
  lemma Halve(x: nat, h: nat)
    requires 0 < h
    ensures 2 * x % (2 * h) == 0 <==> x % h == 0
  {
    var q := 2 * x / (2 * h);
    if 2 * x % (2 * h) == 0 {
      assert 2 * x == 2 * (q * h);
      Multiple(q, h);
    }
    if x % h == 0 {
      var k := x / h;
      assert x == k * h;
      assert 2 * x == k * (2 * h);
      Multiple(k, 2 * h);
    }
  }

  lemma {:induction false} PowersDivide(small: nat, large: nat)
    requires PowerOfTwo(small) && PowerOfTwo(large) && small <= large
    ensures large % small == 0
  {
    if 1 < small {
      PowersDivide(small / 2, large / 2);
      Halve(large / 2, small / 2);
    }
  }

  lemma OddTimesOdd(d: nat, s: nat)
    requires d % 2 == 1 && s % 2 == 1
    ensures d * s % 2 == 1
  {
    var a, b := d / 2, s / 2;
    assert d * s == 2 * (2 * a * b + a + b) + 1;
  }

  lemma EvenMultiple(x: nat, h: nat)
    requires 0 < h && x % (2 * h) == 0
    ensures x % 2 == 0
  {
    var q := x / (2 * h);
    assert x == 2 * (q * h);
  }

  /** An odd factor cancels modulo a power of two. */
  lemma {:induction false} OddCancels(c: nat, d: nat, s: nat)
    requires PowerOfTwo(c) && s % 2 == 1 && d * s % c == 0
    ensures d % c == 0
  {
    if 1 < c {
      var h, e := c / 2, d / 2;
      EvenMultiple(d * s, h);
      if d % 2 == 1 {
        OddTimesOdd(d, s);
      } else {
        Reassociate(e, s);
        Halve(e * s, h);
        OddCancels(h, e, s);
        Halve(e, h);
      }
    }
  }

  lemma Reassociate(e: nat, s: nat)
    ensures 2 * e * s == 2 * (e * s)
  {
  }

  // ---------------------------------------------------------------- counting

  ghost function Elements(s: seq<nat>): set<nat> { set x | x in s }

  lemma {:induction false} CountElements(s: seq<nat>)
    ensures |Elements(s)| <= |s|
    ensures Distinct(s) ==> |Elements(s)| == |s|
  {
    if s != [] {
      var front, last := s[..|s| - 1], s[|s| - 1];
      CountElements(front);
      assert Elements(s) == Elements(front) + {last};
      assert Distinct(s) ==> Distinct(front) && last !in front;
    }
  }

  ghost function Below(n: nat): (r: set<nat>)
    ensures |r| == n
    ensures forall i: nat :: i in r <==> i < n
  {
    if n == 0 then {} else Below(n - 1) + {n - 1}
  }

  lemma Smaller(a: set<nat>, b: set<nat>)
    requires a <= b
    ensures |a| <= |b|
    ensures |a| == |b| ==> a == b
  {
    assert b == a + (b - a);
    assert |b| == |a| + |b - a|;
  }

  /** n distinct indices below n are all of them. */
  lemma DistinctCovers(s: seq<nat>)
    requires Distinct(s) && forall i :: 0 <= i < |s| ==> s[i] < |s|
    ensures CoversTable(s, |s|)
  {
    CountElements(s);
    Smaller(Elements(s), Below(|s|));
    forall i: nat | i < |s| ensures i in s {
      assert i in Elements(s);
    }
  }

  /** n indices with a repetition miss one of n. */
  lemma RepetitionMisses(s: seq<nat>, i: nat, j: nat)
    requires i < j < |s| && s[i] == s[j]
    ensures !CoversTable(s, |s|)
  {
    var rest := s[..j] + s[j + 1..];
    forall x | x in s ensures x in rest {
      var k :| 0 <= k < |s| && s[k] == x;
      if k < j { assert rest[k] == x; } else if k == j { assert rest[i] == x; } else { assert rest[k - 1] == x; }
    }
    CountElements(rest);
    if forall x: nat :: x < |s| ==> x in s {
      assert Below(|s|) <= Elements(rest);
      Smaller(Below(|s|), Elements(rest));
    }
  }

  // ---------------------------------------------------------------- the scan

  lemma OddRemainder(x: nat, capacity: nat)
    requires 0 < capacity && capacity % 2 == 0 && x % 2 == 1
    ensures x % capacity % 2 == 1
  {
    RemainderOfRemainder(x, capacity, 2);
  }

  lemma StepIsOdd(mixed: nat, capacity: nat)
    requires PowerOfTwo(capacity) && 1 < capacity
    ensures ProbeStep(mixed, capacity) % 2 == 1
  {
    OddRemainder(mixed + 1 - mixed % 2, capacity);
  }

  lemma Double(a: nat)
    requires PowerOfTwo(a)
    ensures PowerOfTwo(2 * a)
  {
    assert 2 * a / 2 == a;
  }

  lemma TimesSixteen(a: nat)
    requires PowerOfTwo(a)
    ensures PowerOfTwo(16 * a)
  {
    hide PowerOfTwo;
    Double(a);
    Double(2 * a);
    Double(4 * a);
    Double(8 * a);
  }

  lemma WordIsPower()
    ensures PowerOfTwo(TWO32)
  {
    TimesSixteen(1);
    TimesSixteen(0x10);
    TimesSixteen(0x100);
    TimesSixteen(0x1000);
    TimesSixteen(0x1_0000);
    TimesSixteen(0x10_0000);
    TimesSixteen(0x100_0000);
    TimesSixteen(0x1000_0000);
  }

  /** In a table of a power of two the 32-bit wrap is invisible. */
  lemma WrapInvisible(slot: nat, probe: nat, step: nat, capacity: nat)
    requires PowerOfTwo(capacity) && capacity <= TWO32
    ensures ProbeIndex(slot, probe, step, capacity) == (slot + probe * step) % capacity
  {
    WordIsPower();
    PowersDivide(capacity, TWO32);
    RemainderOfRemainder(slot + probe * step, TWO32, capacity);
  }

  lemma SameRemainder(x: nat, y: nat, c: nat)
    requires 0 < c && x <= y && x % c == y % c
    ensures (y - x) % c == 0
  {
    var k := y / c - x / c;
    assert y - x == k * c;
    Multiple(k, c);
  }

  lemma Apart(x: nat, k: nat, step: nat, c: nat)
    requires PowerOfTwo(c) && step % 2 == 1 && 0 < k < c
    ensures x % c != (x + k * step) % c
  {
    if x % c == (x + k * step) % c {
      SameRemainder(x, x + k * step, c);
      OddCancels(c, k, step);
      Divide(c, 0, k);
    }
  }

  lemma Advance(slot: nat, p: nat, q: nat, step: nat)
    requires p <= q
    ensures slot + q * step == slot + p * step + (q - p) * step
  {
    Plus(p, q - p, step);
  }

  lemma ProbesApart(slot: nat, p: nat, q: nat, step: nat, capacity: nat)
    requires PowerOfTwo(capacity) && capacity <= TWO32 && step % 2 == 1 && p < q < capacity
    ensures ProbeIndex(slot, p, step, capacity) != ProbeIndex(slot, q, step, capacity)
  {
    hide PowerOfTwo, ProbeIndex;
    WrapInvisible(slot, p, step, capacity);
    WrapInvisible(slot, q, step, capacity);
    Advance(slot, p, q, step);
    Apart(slot + p * step, q - p, step, capacity);
  }

  /** In a table of a power of two no scan visits an index twice, and a scan of as many probes as entries
      visits every index. */
  lemma PowerOfTwoScan(slot: nat, mixed: nat, capacity: nat, probes: nat)
    requires PowerOfTwo(capacity) && capacity <= TWO32 && probes <= capacity
    ensures var visited := Probed(slot, ProbeStep(mixed, capacity), capacity, probes);
            && Distinct(visited) && (forall i :: 0 <= i < |visited| ==> visited[i] < capacity)
            && (probes == capacity ==> CoversTable(visited, capacity))
  {
    var step := ProbeStep(mixed, capacity);
    var visited := Probed(slot, step, capacity, probes);
    if 1 < capacity {
      StepIsOdd(mixed, capacity);
      forall i, j | 0 <= i < j < probes ensures visited[i] != visited[j] {
        ProbesApart(slot, i, j, step, capacity);
      }
    }
    if probes == capacity { DistinctCovers(visited); }
  }

  function OddPart(n: nat): (f: nat)
    requires 0 < n
    ensures f % 2 == 1 && 0 < f <= n
  {
    if n % 2 == 1 then n else OddPart(n / 2)
  }

  /** A number that is no power of two is an odd factor of at least 3 times something smaller. */
  lemma {:induction false} OddFactor(n: nat) returns (t: nat)
    requires 0 < n && !PowerOfTwo(n)
    ensures n == t * OddPart(n) && 3 <= OddPart(n) && 0 < t < n && (n % 2 == 0 ==> 1 < t)
  {
    if n % 2 == 1 {
      t := 1;
    } else {
      var u := OddFactor(n / 2);
      t := 2 * u;
      assert n == 2 * (u * OddPart(n / 2));
    }
  }

  /** The odd factor as mixed seed: the step is the factor, or 0 when it is the whole capacity. */
  lemma StepOfOddPart(capacity: nat, t: nat)
    requires 1 < capacity && t * OddPart(capacity) == capacity && 0 < t && (capacity % 2 == 0 ==> 1 < t)
    ensures ProbeStep(OddPart(capacity), capacity) == if capacity % 2 == 1 then 0 else OddPart(capacity)
  {
    var f := OddPart(capacity);
    if capacity % 2 == 0 {
      Plus(2, t - 2, f);
      Divide(capacity, 0, f);
    } else {
      Divide(capacity, 1, 0);
    }
  }

  lemma StartsAgain(step: nat, t: nat, capacity: nat)
    requires 0 < capacity < TWO32 && (t * step == 0 || t * step == capacity)
    ensures ProbeIndex(0, t, step, capacity) == 0
  {
    Divide(capacity, 1, 0);
    assert (0 + t * step) % TWO32 == t * step;
  }

  /** Two probes that start from the same place miss an entry of the table. */
  lemma RepeatedProbe(step: nat, t: nat, capacity: nat)
    requires 0 < t < capacity < TWO32 && (t * step == 0 || t * step == capacity)
    ensures !CoversTable(Probed(0, step, capacity, capacity), capacity)
  {
    StartsAgain(step, t, capacity);
    StartsAgain(step, 0, capacity);
    RepetitionMisses(Probed(0, step, capacity, capacity), 0, t);
  }

  /** Otherwise some mixed seed makes the scan of a whole table miss an entry. */
  lemma OtherScansMiss(capacity: nat)
    requires 0 < capacity <= INT_MAX && !PowerOfTwo(capacity)
    ensures var mixed := OddPart(capacity);
            mixed < TWO32 && !CoversTable(Probed(0, ProbeStep(mixed, capacity), capacity, capacity), capacity)
  {
    var t := OddFactor(capacity);
    StepOfOddPart(capacity, t);
    RepeatedProbe(ProbeStep(OddPart(capacity), capacity), t, capacity);
  }

  /** A configured probe count of 0 scans the whole table from every slot and seed exactly when the
      capacity is a power of two. */
  lemma ZeroProbesScanWholeTable(capacity: nat)
    requires 0 < capacity <= INT_MAX
    ensures (forall slot: nat, mixed: nat :: slot < capacity && mixed < TWO32 ==>
               CoversTable(Probed(slot, ProbeStep(mixed, capacity), capacity, ProbeCount(0, capacity)), capacity))
       <==> PowerOfTwo(capacity)
  {
    if PowerOfTwo(capacity) {
      forall slot: nat, mixed: nat | slot < capacity && mixed < TWO32
        ensures CoversTable(Probed(slot, ProbeStep(mixed, capacity), capacity, ProbeCount(0, capacity)), capacity)
      {
        PowerOfTwoScan(slot, mixed, capacity, capacity);
      }
    } else {
      OtherScansMiss(capacity);
      var mixed := OddPart(capacity);
      assert !CoversTable(Probed(0, ProbeStep(mixed, capacity), capacity, ProbeCount(0, capacity)), capacity);
    }
  }
}
