/** The streaming softmax of the attention kernels, for one query row and one value column, over the
    reals. Scores arrive tile by tile; the running maximum, sum and accumulator are rescaled at every
    tile, and a running sum of zero resets the old scale to zero. */
module StreamingSoftmax {
  import A = Arith

  /** The initial running maximum: -3.402823466e38 in single precision. */
  const SENTINEL: real := -340282346638528859811704183484516925440.0

  /** Within the finite single-precision numbers: 24 bits, exponents up to 104. */
  ghost predicate Finite(x: real) {
    -((A.TwoTo(24) - 1) * A.TwoTo(104)) as real <= x <= ((A.TwoTo(24) - 1) * A.TwoTo(104)) as real
  }

  /** The sentinel is the least finite number. */
  lemma SentinelIsLeastFinite(x: real)
    ensures Finite(SENTINEL) && (Finite(x) ==> SENTINEL <= x)
  {
    hide A.TwoTo;
    SmallPower();
    A.TwoToSum(8, 8);
    A.TwoToSum(16, 8);
    A.TwoToSum(24, 24);
    A.TwoToSum(48, 48);
    A.TwoToSum(96, 8);
    assert A.TwoTo(24) == 0x100_0000 && A.TwoTo(48) == 0x1_0000_0000_0000;
    assert A.TwoTo(104) == 0x1_0000_0000_0000 * 0x1_0000_0000_0000 * 0x100;
  }

  lemma SmallPower()
    ensures A.TwoTo(8) == 0x100
  {
    A.TwoToSum(4, 4);
  }

  type Fn = real -> real

  function Plus(x: real, y: real): real { x + y }

  function Times(x: real, y: real): real { x * y }

  /** All the exponential has to satisfy. */
  ghost predicate Exponential(exp: Fn) {
    && (forall x :: 0.0 < exp(x))
    && (forall x, y {:trigger Plus(x, y)} :: exp(Plus(x, y)) == Times(exp(x), exp(y)))
  }

  /** Rounding a weight to the storage format: any function that keeps nonnegative values so. */
  ghost predicate Rounding(round: Fn) {
    forall x :: 0.0 <= x ==> 0.0 <= round(x)
  }

  function Max(a: real, b: real): real { if a < b then b else a }

  function Sum(xs: seq<real>): real {
    if xs == [] then 0.0 else Sum(xs[..|xs| - 1]) + xs[|xs| - 1]
  }

  function Dot(xs: seq<real>, ys: seq<real>): real
    requires |xs| == |ys|
  {
    if xs == [] then 0.0 else Dot(xs[..|xs| - 1], ys[..|ys| - 1]) + Times(xs[|xs| - 1], ys[|ys| - 1])
  }

  function Scaled(xs: seq<real>, c: real): (r: seq<real>)
    ensures |r| == |xs|
  {
    seq(|xs|, i requires 0 <= i < |xs| => Times(xs[i], c))
  }

  /** exp(s_k - m), the weights of a batch softmax with reference m. */
  function Weights(exp: Fn, scores: seq<real>, m: real): (r: seq<real>)
    ensures |r| == |scores|
  {
    seq(|scores|, i requires 0 <= i < |scores| => exp(scores[i] - m))
  }

  function Rounded(round: Fn, xs: seq<real>): (r: seq<real>)
    ensures |r| == |xs|
  {
    seq(|xs|, i requires 0 <= i < |xs| => round(xs[i]))
  }

  function MaxOf(scores: seq<real>): real {
    if scores == [] then SENTINEL else Max(MaxOf(scores[..|scores| - 1]), scores[|scores| - 1])
  }

  // ---------------------------------------------------------------- sums

  lemma {:induction false} SumScaled(xs: seq<real>, c: real)
    ensures Sum(Scaled(xs, c)) == Times(Sum(xs), c)
  {
    if xs != [] {
      assert Scaled(xs, c)[..|xs| - 1] == Scaled(xs[..|xs| - 1], c);
      SumScaled(xs[..|xs| - 1], c);
    }
  }

  lemma {:induction false} DotScaled(xs: seq<real>, ys: seq<real>, c: real)
    requires |xs| == |ys|
    ensures Dot(Scaled(xs, c), ys) == Times(Dot(xs, ys), c)
  {
    if xs != [] {
      assert Scaled(xs, c)[..|xs| - 1] == Scaled(xs[..|xs| - 1], c);
      DotScaled(xs[..|xs| - 1], ys[..|ys| - 1], c);
      PullOut(Dot(xs[..|xs| - 1], ys[..|ys| - 1]), xs[|xs| - 1], ys[|ys| - 1], c);
    }
  }

  lemma PullOut(d: real, x: real, y: real, c: real)
    ensures Times(d + Times(x, y), c) == Times(d, c) + Times(Times(x, c), y)
  {
  }

  lemma {:induction false} SumConcat(xs: seq<real>, ys: seq<real>)
    ensures Sum(xs + ys) == Sum(xs) + Sum(ys)
  {
    if ys == [] {
      assert xs + ys == xs;
    } else {
      assert (xs + ys)[..|xs + ys| - 1] == xs + ys[..|ys| - 1];
      SumConcat(xs, ys[..|ys| - 1]);
    }
  }

  lemma {:induction false} DotConcat(xs: seq<real>, ys: seq<real>, us: seq<real>, vs: seq<real>)
    requires |xs| == |us| && |ys| == |vs|
    ensures Dot(xs + ys, us + vs) == Dot(xs, us) + Dot(ys, vs)
  {
    if ys == [] {
      assert xs + ys == xs && us + vs == us;
    } else {
      assert (xs + ys)[..|xs + ys| - 1] == xs + ys[..|ys| - 1];
      assert (us + vs)[..|us + vs| - 1] == us + vs[..|vs| - 1];
      DotConcat(xs, ys[..|ys| - 1], us, vs[..|vs| - 1]);
    }
  }

  ghost predicate Nonnegative(xs: seq<real>) {
    forall i :: 0 <= i < |xs| ==> 0.0 <= xs[i]
  }

  /** Nonnegative numbers summing to zero are all zero. */
  lemma {:induction false} ZeroSum(xs: seq<real>)
    requires Nonnegative(xs)
    ensures 0.0 <= Sum(xs)
    ensures Sum(xs) == 0.0 ==> forall i :: 0 <= i < |xs| ==> xs[i] == 0.0
  {
    if xs != [] { ZeroSum(xs[..|xs| - 1]); }
  }

  lemma {:induction false} MaxOfConcat(xs: seq<real>, ys: seq<real>)
    ensures MaxOf(xs + ys) == Max(MaxOf(xs), MaxOf(ys)) && SENTINEL <= MaxOf(ys)
  {
    if ys == [] {
      assert xs + ys == xs;
      MaxOfIsMaximum(xs);
    } else {
      assert (xs + ys)[..|xs + ys| - 1] == xs + ys[..|ys| - 1];
      MaxOfConcat(xs, ys[..|ys| - 1]);
    }
  }

  /** Moving the reference multiplies every weight by the same factor. */
  lemma Rescale(exp: Fn, scores: seq<real>, m: real, m': real)
    requires Exponential(exp)
    ensures Weights(exp, scores, m') == Scaled(Weights(exp, scores, m), exp(m - m'))
  {
    forall i | 0 <= i < |scores| ensures exp(scores[i] - m') == Times(exp(scores[i] - m), exp(m - m')) {
      assert scores[i] - m' == Plus(scores[i] - m, m - m');
    }
  }

  // ---------------------------------------------------------------- one tile

  datatype Row = Row(max: real, sum: real, acc: real)

  function Start(): Row { Row(SENTINEL, 0.0, 0.0) }

  function OldScale(exp: Fn, sum: real, oldMax: real, newMax: real): real {
    if sum == 0.0 then 0.0 else exp(oldMax - newMax)
  }

  /** A row that has accumulated nothing is not rescaled but dropped; any other moves its reference. */
  lemma OldScaleMovesReference(exp: Fn, sum: real, oldMax: real, newMax: real)
    requires Exponential(exp)
    ensures sum == 0.0 ==> OldScale(exp, sum, oldMax, newMax) == 0.0
    ensures sum != 0.0 ==> Times(OldScale(exp, sum, oldMax, newMax), exp(newMax)) == exp(oldMax)
  {
    assert Plus(oldMax - newMax, newMax) == oldMax;
  }

  /** The running maximum bounds every score and is one of them, unless all lie below the sentinel. */
  lemma {:induction false} MaxOfIsMaximum(scores: seq<real>)
    ensures SENTINEL <= MaxOf(scores) && forall k :: 0 <= k < |scores| ==> scores[k] <= MaxOf(scores)
    ensures MaxOf(scores) == SENTINEL || MaxOf(scores) in scores
  {
    if scores != [] { MaxOfIsMaximum(scores[..|scores| - 1]); }
  }

  method TileMax(scores: seq<real>) returns (tileMax: real)
    ensures tileMax == MaxOf(scores)
  {
    tileMax := SENTINEL;
    var key := 0;
    while key < |scores|
      invariant 0 <= key <= |scores| && tileMax == MaxOf(scores[..key])
    {
      assert scores[..key + 1][..key] == scores[..key];
      tileMax := Max(tileMax, scores[key]);
      key := key + 1;
    }
    assert scores[..|scores|] == scores;
  }

  method TileWeights(exp: Fn, round: Fn, scores: seq<real>, newMax: real) returns (weights: seq<real>, tileSum: real)
    ensures weights == Rounded(round, Weights(exp, scores, newMax)) && tileSum == Sum(weights)
  {
    weights, tileSum := [], 0.0;
    var key := 0;
    while key < |scores|
      invariant 0 <= key <= |scores|
      invariant weights == Rounded(round, Weights(exp, scores, newMax))[..key] && tileSum == Sum(weights)
    {
      var weight := round(exp(scores[key] - newMax));
      assert (weights + [weight])[..key] == weights;
      weights := weights + [weight];
      tileSum := tileSum + weight;
      key := key + 1;
    }
  }

  method TileProduct(weights: seq<real>, values: seq<real>) returns (product: real)
    requires |weights| == |values|
    ensures product == Dot(weights, values)
  {
    product := 0.0;
    var key := 0;
    while key < |weights|
      invariant 0 <= key <= |weights| && product == Dot(weights[..key], values[..key])
    {
      assert weights[..key + 1][..key] == weights[..key] && values[..key + 1][..key] == values[..key];
      product := product + Times(weights[key], values[key]);
      key := key + 1;
    }
    assert weights[..|weights|] == weights && values[..|values|] == values;
  }

  /** The softmax and accumulation phases of one key tile, as the kernel's loops run them. */
  method Tile(exp: Fn, round: Fn, row: Row, scores: seq<real>, values: seq<real>) returns (next: Row)
    requires |scores| == |values|
    ensures next.max == Max(row.max, MaxOf(scores))
    ensures next.sum == Times(row.sum, OldScale(exp, row.sum, row.max, next.max))
                      + Sum(Rounded(round, Weights(exp, scores, next.max)))
    ensures next.acc == Times(row.acc, OldScale(exp, row.sum, row.max, next.max))
                      + Dot(Rounded(round, Weights(exp, scores, next.max)), values)
  {
    var tileMax := TileMax(scores);
    var newMax := Max(row.max, tileMax);
    var oldScale := OldScale(exp, row.sum, row.max, newMax);
    var weights, tileSum := TileWeights(exp, round, scores, newMax);
    var product := TileProduct(weights, values);
    next := Row(newMax, Times(row.sum, oldScale) + tileSum, Times(row.acc, oldScale) + product);
  }

  // ---------------------------------------------------------------- all tiles

  /** The keys of all tiles, in order. */
  function Keys(tiles: seq<seq<real>>): seq<real> {
    if tiles == [] then [] else Keys(tiles[..|tiles| - 1]) + tiles[|tiles| - 1]
  }

  ghost predicate SameShape(a: seq<seq<real>>, b: seq<seq<real>>) {
    |a| == |b| && forall t :: 0 <= t < |a| ==> |a[t]| == |b[t]|
  }

  lemma {:induction false} SameLength(a: seq<seq<real>>, b: seq<seq<real>>)
    requires SameShape(a, b)
    ensures |Keys(a)| == |Keys(b)|
  {
    if a != [] { SameLength(a[..|a| - 1], b[..|b| - 1]); }
  }

  /** The weight every key has ended up with after the tiles (rounded when its tile was processed,
      then rescaled with the row). Values play no part in it. */
  function Effective(exp: Fn, round: Fn, tiles: seq<seq<real>>): (r: seq<real>)
    ensures |r| == |Keys(tiles)|
  {
    if tiles == [] then []
    else
      var before, last := tiles[..|tiles| - 1], tiles[|tiles| - 1];
      var m := MaxOf(Keys(tiles));
      var kept := Effective(exp, round, before);
      Scaled(kept, OldScale(exp, Sum(kept), MaxOf(Keys(before)), m)) + Rounded(round, Weights(exp, last, m))
  }

  lemma {:induction false} EffectiveNonnegative(exp: Fn, round: Fn, tiles: seq<seq<real>>)
    requires Exponential(exp) && Rounding(round)
    ensures Nonnegative(Effective(exp, round, tiles))
  {
    hide Scaled, Weights, Rounded, MaxOf, Sum, Rounding;
    if tiles != [] {
      var before := tiles[..|tiles| - 1];
      EffectiveNonnegative(exp, round, before);
      var kept := Effective(exp, round, before);
      var m := MaxOf(Keys(tiles));
      var scale := OldScale(exp, Sum(kept), MaxOf(Keys(before)), m);
      ScaledNonnegative(kept, scale);
      RoundedNonnegative(exp, round, tiles[|tiles| - 1], m);
      BothNonnegative(Scaled(kept, scale), Rounded(round, Weights(exp, tiles[|tiles| - 1], m)));
    }
  }

  lemma RoundedNonnegative(exp: Fn, round: Fn, scores: seq<real>, m: real)
    requires Exponential(exp) && Rounding(round)
    ensures Nonnegative(Rounded(round, Weights(exp, scores, m)))
  {
  }

  lemma BothNonnegative(xs: seq<real>, ys: seq<real>)
    requires Nonnegative(xs) && Nonnegative(ys)
    ensures Nonnegative(xs + ys)
  {
  }

  lemma ScaledNonnegative(xs: seq<real>, c: real)
    requires Nonnegative(xs) && 0.0 <= c
    ensures Nonnegative(Scaled(xs, c))
  {
  }

  ghost function Identity(): Fn { x => x }

  /** Without rounding, the effective weights are the batch weights exp(s_k - max). */
  lemma {:induction false} EffectiveIsBatch(exp: Fn, tiles: seq<seq<real>>)
    requires Exponential(exp)
    ensures Effective(exp, Identity(), tiles) == Weights(exp, Keys(tiles), MaxOf(Keys(tiles)))
  {
    if tiles != [] {
      var before, last := tiles[..|tiles| - 1], tiles[|tiles| - 1];
      var m, m' := MaxOf(Keys(before)), MaxOf(Keys(tiles));
      EffectiveIsBatch(exp, before);
      RescaleKept(exp, Keys(before), m, m');
      WeightsConcat(exp, Keys(before), last, m');
      RoundedIdentity(Weights(exp, last, m'));
    }
  }

  lemma WeightsConcat(exp: Fn, xs: seq<real>, ys: seq<real>, m: real)
    ensures Weights(exp, xs + ys, m) == Weights(exp, xs, m) + Weights(exp, ys, m)
  {
  }

  lemma RoundedIdentity(xs: seq<real>)
    ensures Rounded(Identity(), xs) == xs
  {
  }

  /** The kernel's old scale moves the reference: a zero sum means that nothing was accumulated. */
  lemma RescaleKept(exp: Fn, scores: seq<real>, m: real, m': real)
    requires Exponential(exp)
    ensures Scaled(Weights(exp, scores, m), OldScale(exp, Sum(Weights(exp, scores, m)), m, m'))
         == Weights(exp, scores, m')
  {
    PositiveSum(exp, scores, m);
    if scores != [] { Rescale(exp, scores, m, m'); }
  }

  lemma {:induction false} PositiveSum(exp: Fn, scores: seq<real>, m: real)
    requires Exponential(exp)
    ensures if scores == [] then Sum(Weights(exp, scores, m)) == 0.0 else 0.0 < Sum(Weights(exp, scores, m))
  {
    if scores != [] {
      PositiveSum(exp, scores[..|scores| - 1], m);
      assert Weights(exp, scores, m)[..|scores| - 1] == Weights(exp, scores[..|scores| - 1], m);
    }
  }

  /** The whole key loop of the kernel: numerator and normalizer carry the same effective weights,
      whatever the rounding; the running maximum is the maximum seen. */
  method Stream(exp: Fn, round: Fn, scores: seq<seq<real>>, values: seq<seq<real>>) returns (row: Row)
    requires SameShape(scores, values)
    ensures row.max == MaxOf(Keys(scores))
    ensures row.sum == Sum(Effective(exp, round, scores))
    ensures |Keys(scores)| == |Keys(values)| && row.acc == Dot(Effective(exp, round, scores), Keys(values))
  {
    row := Start();
    var tile := 0;
    while tile < |scores|
      invariant 0 <= tile <= |scores|
      invariant row.max == MaxOf(Keys(scores[..tile]))
      invariant row.sum == Sum(Effective(exp, round, scores[..tile]))
      invariant |Keys(scores[..tile])| == |Keys(values[..tile])|
      invariant row.acc == Dot(Effective(exp, round, scores[..tile]), Keys(values[..tile]))
    {
      ghost var was := row;
      row := Tile(exp, round, row, scores[tile], values[tile]);
      assert scores[..tile + 1][..tile] == scores[..tile] && values[..tile + 1][..tile] == values[..tile];
      TileStep(exp, round, scores[..tile + 1], values[..tile + 1], was, row);
      tile := tile + 1;
    }
    assert scores[..|scores|] == scores && values[..|values|] == values;
  }

  lemma LastTile(tiles: seq<seq<real>>)
    requires tiles != []
    ensures Keys(tiles) == Keys(tiles[..|tiles| - 1]) + tiles[|tiles| - 1]
  {
  }

  lemma EffectiveOfLast(exp: Fn, round: Fn, tiles: seq<seq<real>>)
    requires tiles != []
    ensures var before, last := tiles[..|tiles| - 1], tiles[|tiles| - 1];
            var kept := Effective(exp, round, before);
            Effective(exp, round, tiles)
            == Scaled(kept, OldScale(exp, Sum(kept), MaxOf(Keys(before)), MaxOf(Keys(tiles))))
             + Rounded(round, Weights(exp, last, MaxOf(Keys(tiles))))
  {
  }

  lemma TileStep(exp: Fn, round: Fn, scores: seq<seq<real>>, values: seq<seq<real>>, was: Row, row: Row)
    requires SameShape(scores, values) && scores != []
    requires var n := |scores| - 1;
             var last := Rounded(round, Weights(exp, scores[n], row.max));
             var scale := OldScale(exp, was.sum, was.max, row.max);
             && |Keys(scores[..n])| == |Keys(values[..n])|
             && was.max == MaxOf(Keys(scores[..n])) && row.max == Max(was.max, MaxOf(scores[n]))
             && was.sum == Sum(Effective(exp, round, scores[..n]))
             && was.acc == Dot(Effective(exp, round, scores[..n]), Keys(values[..n]))
             && row.sum == Times(was.sum, scale) + Sum(last) && row.acc == Times(was.acc, scale) + Dot(last, values[n])
    ensures row.max == MaxOf(Keys(scores))
    ensures row.sum == Sum(Effective(exp, round, scores))
    ensures |Keys(scores)| == |Keys(values)| && row.acc == Dot(Effective(exp, round, scores), Keys(values))
  {
    hide Sum, Dot, Scaled, Weights, Rounded, MaxOf, OldScale, Effective, Keys;
    var n := |scores| - 1;
    LastTile(scores);
    LastTile(values);
    EffectiveOfLast(exp, round, scores);
    MaxOfConcat(Keys(scores[..n]), scores[n]);
    var before := Effective(exp, round, scores[..n]);
    var last := Rounded(round, Weights(exp, scores[n], row.max));
    var scale := OldScale(exp, was.sum, was.max, row.max);
    SumScaled(before, scale);
    DotScaled(before, Keys(values[..n]), scale);
    SumConcat(Scaled(before, scale), last);
    DotConcat(Scaled(before, scale), last, Keys(values[..n]), values[n]);
  }

  // ---------------------------------------------------------------- the result

  /** The kernel's quotient is the batch softmax, for every reference m (in particular m = 0) and
      however the keys are cut into tiles. */
  lemma StreamIsBatchSoftmax(exp: Fn, scores: seq<seq<real>>, values: seq<real>, m: real)
    requires Exponential(exp) && |Keys(scores)| == |values| && 0 < |values|
    ensures 0.0 < Sum(Effective(exp, Identity(), scores)) && 0.0 < Sum(Weights(exp, Keys(scores), m))
    ensures Dot(Effective(exp, Identity(), scores), values) / Sum(Effective(exp, Identity(), scores))
         == Dot(Weights(exp, Keys(scores), m), values) / Sum(Weights(exp, Keys(scores), m))
  {
    var keys := Keys(scores);
    EffectiveIsBatch(exp, scores);
    ReferenceDoesNotMatter(exp, keys, values, MaxOf(keys), m);
  }

  lemma ReferenceDoesNotMatter(exp: Fn, keys: seq<real>, values: seq<real>, m: real, m': real)
    requires Exponential(exp) && |keys| == |values| && 0 < |values|
    ensures 0.0 < Sum(Weights(exp, keys, m)) && 0.0 < Sum(Weights(exp, keys, m'))
    ensures Dot(Weights(exp, keys, m), values) / Sum(Weights(exp, keys, m))
         == Dot(Weights(exp, keys, m'), values) / Sum(Weights(exp, keys, m'))
  {
    PositiveSum(exp, keys, m);
    PositiveSum(exp, keys, m');
    var w, c := Weights(exp, keys, m), exp(m - m');
    Rescale(exp, keys, m, m');
    SumScaled(w, c);
    DotScaled(w, values, c);
    CancelFactor(Dot(w, values), Sum(w), c);
  }

  lemma CancelFactor(a: real, b: real, c: real)
    requires b != 0.0 && c != 0.0
    ensures Times(b, c) != 0.0 && Times(a, c) / Times(b, c) == a / b
  {
    var q := a / b;
    assert a == q * b;
    assert a * c == q * (b * c);
  }

  /** With any rounding, the output is a weighted mean of the values: if any weight survives, it stays
      within their range. */
  lemma RoundedOutputWithinValues(exp: Fn, round: Fn, scores: seq<seq<real>>, values: seq<real>, low: real, high: real)
    requires Exponential(exp) && Rounding(round) && |Keys(scores)| == |values|
    requires forall i :: 0 <= i < |values| ==> low <= values[i] <= high
    requires Sum(Effective(exp, round, scores)) != 0.0
    ensures low <= Dot(Effective(exp, round, scores), values) / Sum(Effective(exp, round, scores)) <= high
  {
    var w := Effective(exp, round, scores);
    EffectiveNonnegative(exp, round, scores);
    ZeroSum(w);
    MeanWithin(w, values, low, high);
    DivideBounds(low, Dot(w, values), high, Sum(w));
  }

  /** Some score is a number that the sentinel does not exceed. */
  ghost predicate SomeScore(tiles: seq<seq<real>>) {
    exists k :: 0 <= k < |Keys(tiles)| && SENTINEL <= Keys(tiles)[k]
  }

  /** One finite score is enough. */
  lemma FiniteScoreSuffices(tiles: seq<seq<real>>, k: nat)
    requires k < |Keys(tiles)| && Finite(Keys(tiles)[k])
    ensures SomeScore(tiles)
  {
    hide Finite;
    SentinelIsLeastFinite(Keys(tiles)[k]);
  }

  lemma ExpOfZero(exp: Fn)
    requires Exponential(exp)
    ensures exp(0.0) == 1.0
  {
    var x := exp(0.0);
    assert exp(Plus(0.0, 0.0)) == Times(x, x);
    assert Plus(0.0, 0.0) == 0.0;
    PositiveSquare(x);
  }

  lemma PositiveSquare(x: real)
    requires 0.0 < x && Times(x, x) == x
    ensures x == 1.0
  {
    assert x * (x - 1.0) == 0.0;
  }

  /** The largest score of a tile keeps weight exp(0), so its rounded weight is round(1). */
  lemma MaximumKeepsWeight(exp: Fn, round: Fn, scores: seq<real>)
    requires Exponential(exp) && Rounding(round) && 0.0 < round(1.0) && MaxOf(scores) in scores
    ensures 0.0 < Sum(Rounded(round, Weights(exp, scores, MaxOf(scores))))
  {
    var m := MaxOf(scores);
    var weights := Rounded(round, Weights(exp, scores, m));
    var k :| 0 <= k < |scores| && scores[k] == m;
    ExpOfZero(exp);
    assert weights[k] == round(1.0);
    RoundedNonnegative(exp, round, scores, m);
    ZeroSum(weights);
  }

  lemma MaximumAttained(tiles: seq<seq<real>>)
    requires SomeScore(tiles)
    ensures MaxOf(Keys(tiles)) in Keys(tiles)
  {
    hide Keys, MaxOf;
    var keys := Keys(tiles);
    MaxOfIsMaximum(keys);
    var k :| 0 <= k < |keys| && SENTINEL <= keys[k];
    assert keys[k] in keys && keys[k] <= MaxOf(keys);
  }

  /** If the maximum lies in earlier tiles, their scaled sum stays positive. */
  lemma ScaledSumPositive(exp: Fn, kept: seq<real>, oldMax: real, newMax: real)
    requires Exponential(exp) && 0.0 < Sum(kept)
    ensures 0.0 < Sum(Scaled(kept, OldScale(exp, Sum(kept), oldMax, newMax)))
  {
    SumScaled(kept, OldScale(exp, Sum(kept), oldMax, newMax));
  }

  /** The normalizer is positive as soon as the weight 1 does not round to zero. */
  lemma {:induction false} NormalizerIsPositive(exp: Fn, round: Fn, tiles: seq<seq<real>>)
    requires Exponential(exp) && Rounding(round) && 0.0 < round(1.0) && SomeScore(tiles)
    ensures 0.0 < Sum(Effective(exp, round, tiles))
    decreases |tiles|
  {
    hide Scaled, Weights, Rounded, Sum, Effective, MaxOf, OldScale, Rounding, Exponential;
    var before, last := tiles[..|tiles| - 1], tiles[|tiles| - 1];
    var m, kept := MaxOf(Keys(tiles)), Effective(exp, round, before);
    var scale := OldScale(exp, Sum(kept), MaxOf(Keys(before)), m);
    LastTile(tiles);
    EffectiveOfLast(exp, round, tiles);
    SumConcat(Scaled(kept, scale), Rounded(round, Weights(exp, last, m)));
    MaximumAttained(tiles);
    EarlierNonnegative(exp, round, before, m);
    RoundedNonnegative(exp, round, last, m);
    ZeroSum(Rounded(round, Weights(exp, last, m)));
    if m in last {
      LastHoldsMaximum(Keys(before), last);
      MaximumKeepsWeight(exp, round, last);
    } else {
      EarlierScore(before, last);
      NormalizerIsPositive(exp, round, before);
      ScaledSumPositive(exp, kept, MaxOf(Keys(before)), m);
    }
  }

  lemma EarlierNonnegative(exp: Fn, round: Fn, before: seq<seq<real>>, m: real)
    requires Exponential(exp) && Rounding(round)
    ensures var kept := Effective(exp, round, before);
            0.0 <= Sum(Scaled(kept, OldScale(exp, Sum(kept), MaxOf(Keys(before)), m)))
  {
    var kept := Effective(exp, round, before);
    var scale := OldScale(exp, Sum(kept), MaxOf(Keys(before)), m);
    EffectiveNonnegative(exp, round, before);
    ScaledNonnegative(kept, scale);
    ZeroSum(Scaled(kept, scale));
  }

  lemma LastHoldsMaximum(xs: seq<real>, ys: seq<real>)
    requires MaxOf(xs + ys) in ys
    ensures MaxOf(ys) == MaxOf(xs + ys)
  {
    MaxOfConcat(xs, ys);
    MaxOfIsMaximum(ys);
  }

  lemma EarlierScore(before: seq<seq<real>>, last: seq<real>)
    requires MaxOf(Keys(before) + last) in Keys(before) + last && MaxOf(Keys(before) + last) !in last
    ensures SomeScore(before)
  {
    var m := MaxOf(Keys(before) + last);
    MaxOfIsMaximum(Keys(before) + last);
    assert m in Keys(before);
  }

  /** The kernel divides by a positive normalizer on all scores exactly when the weight 1 does not round
      to zero. */
  lemma NormalizerPositiveExactly(exp: Fn, round: Fn)
    requires Exponential(exp) && Rounding(round)
    ensures (forall tiles :: SomeScore(tiles) ==> 0.0 < Sum(Effective(exp, round, tiles))) <==> 0.0 < round(1.0)
  {
    if 0.0 < round(1.0) {
      forall tiles | SomeScore(tiles) ensures 0.0 < Sum(Effective(exp, round, tiles)) {
        NormalizerIsPositive(exp, round, tiles);
      }
    } else {
      OneScore(exp, round);
    }
  }

  /** A single score of 0 ends up with the one weight round(1). */
  lemma OneScore(exp: Fn, round: Fn)
    requires Exponential(exp)
    ensures SomeScore([[0.0]]) && Sum(Effective(exp, round, [[0.0]])) == round(1.0)
  {
    ExpOfZero(exp);
    assert [[0.0]][..0] == [] && Keys([]) == [] && [] + [0.0] == [0.0];
    assert Keys([[0.0]]) == [0.0] && Keys([[0.0]])[0] == 0.0;
    assert [0.0][..0] == [] && MaxOf([0.0]) == 0.0;
    var w := Rounded(round, Weights(exp, [0.0], 0.0));
    assert w == [round(1.0)] && w[..0] == [];
    var kept := Effective(exp, round, []);
    assert kept == [] && Scaled(kept, OldScale(exp, Sum(kept), MaxOf(Keys([])), 0.0)) == [];
    assert Effective(exp, round, [[0.0]]) == [] + w;
  }

  /** So with a rounding that keeps 1 positive, the output of any sequence of scores is defined and stays
      within the range of the values. */
  lemma OutputWithinValues(exp: Fn, round: Fn, scores: seq<seq<real>>, values: seq<real>, low: real, high: real)
    requires Exponential(exp) && Rounding(round) && 0.0 < round(1.0) && SomeScore(scores)
    requires |Keys(scores)| == |values| && forall i :: 0 <= i < |values| ==> low <= values[i] <= high
    ensures 0.0 < Sum(Effective(exp, round, scores))
    ensures low <= Dot(Effective(exp, round, scores), values) / Sum(Effective(exp, round, scores)) <= high
  {
    NormalizerIsPositive(exp, round, scores);
    RoundedOutputWithinValues(exp, round, scores, values, low, high);
  }

  lemma {:induction false} MeanWithin(weights: seq<real>, values: seq<real>, low: real, high: real)
    requires |weights| == |values| && Nonnegative(weights)
    requires forall i :: 0 <= i < |values| ==> low <= values[i] <= high
    ensures Times(low, Sum(weights)) <= Dot(weights, values) <= Times(high, Sum(weights))
  {
    if weights != [] {
      var n := |weights| - 1;
      MeanWithin(weights[..n], values[..n], low, high);
      AddBounds(low, values[n], high, weights[n], Sum(weights[..n]));
    }
  }

  lemma AddBounds(low: real, v: real, high: real, w: real, sum: real)
    requires low <= v <= high && 0.0 <= w
    ensures Times(low, sum + w) <= Times(low, sum) + Times(w, v)
    ensures Times(high, sum) + Times(w, v) <= Times(high, sum + w)
  {
    assert w * (v - low) >= 0.0;
    assert w * (high - v) >= 0.0;
  }

  lemma DivideBounds(low: real, d: real, high: real, sum: real)
    requires 0.0 < sum && Times(low, sum) <= d <= Times(high, sum)
    ensures low <= d / sum <= high
  {
    assert low == Times(low, sum) / sum && high == Times(high, sum) / sum;
    DivideMonotone(Times(low, sum), d, sum);
    DivideMonotone(d, Times(high, sum), sum);
  }

  lemma DivideMonotone(a: real, b: real, sum: real)
    requires 0.0 < sum && a <= b
    ensures a / sum <= b / sum
  {
  }
}
