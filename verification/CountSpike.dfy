/**
 The count-spike heuristic of the anomaly detector: the two-pass mean, deviation and z-score over
 exact reals, and the integer test it amounts to.
 */
module CountSpike {
  import opened Reals

  datatype Score = Finite(z: real) | Infinite

  /** A zero deviation scores 0 at the mean and infinity anywhere else. */
  function ZScore(sample: real, mean: real, stdev: real): Score {
    if stdev == 0.0 then (if sample == mean then Finite(0.0) else Infinite)
    else Finite((sample - mean) / stdev)
  }

  predicate Exceeds(s: Score, threshold: real) {
    s.Infinite? || s.z > threshold
  }

  // ---- Sums ----

  function Sum(v: seq<nat>): nat {
    if v == [] then 0 else Sum(v[..|v| - 1]) + v[|v| - 1]
  }

  function SquareSum(v: seq<nat>): nat {
    if v == [] then 0 else SquareSum(v[..|v| - 1]) + v[|v| - 1] * v[|v| - 1]
  }

  function DeviationSum(v: seq<nat>, mean: real): real {
    if v == [] then 0.0 else
    DeviationSum(v[..|v| - 1], mean) + SquareOf(v[|v| - 1] as real - mean)
  }

  function SquareOf(x: real): real {
    x * x
  }

  function Mean(v: seq<nat>): real
    requires v != []
  {
    Sum(v) as real / |v| as real
  }

  function Variance(v: seq<nat>): real
    requires |v| >= 2
  {
    DeviationSum(v, Mean(v)) / (|v| - 1) as real
  }

  /** `_stdev`: zero below two values, otherwise the root of the sample variance. */
  function Stdev(v: seq<nat>, root: real -> real): real {
    if |v| < 2 then 0.0 else root(Variance(v))
  }

  method ComputeSum(v: seq<nat>) returns (total: nat)
    ensures total == Sum(v)
  {
    total := 0;
    for i := 0 to |v|
      invariant total == Sum(v[..i])
    {
      assert v[..i + 1][..i] == v[..i];
      total := total + v[i];
    }
    assert v[..|v|] == v;
  }

  method ComputeDeviationSum(v: seq<nat>, mean: real) returns (squares: real)
    ensures squares == DeviationSum(v, mean)
  {
    squares := 0.0;
    for i := 0 to |v|
      invariant squares == DeviationSum(v[..i], mean)
    {
      assert v[..i + 1][..i] == v[..i];
      squares := squares + SquareOf(v[i] as real - mean);
    }
    assert v[..|v|] == v;
  }

  method ComputeStdev(v: seq<nat>, root: real -> real) returns (s: real)
    ensures s == Stdev(v, root)
  {
    if |v| < 2 {
      return 0.0;
    }
    var total := ComputeSum(v);
    var squares := ComputeDeviationSum(v, total as real / |v| as real);
    s := root(squares / (|v| - 1) as real);
  }

  // ---- The integer test ----

  /** `n·Q - S²`, which is `n²(n-1)` times nothing less than the variance. */
  function Spread(v: seq<nat>): int {
    |v| * SquareSum(v) - Sum(v) * Sum(v)
  }

  /** The integer form of "the z-score of `c` against `v` exceeds 3". */
  predicate IntegerSpike(v: seq<nat>, c: nat) {
    var n, s, d := |v|, Sum(v), |v| * c - Sum(v);
    if Spread(v) == 0 then d != 0
    else d > 0 && (n - 1) * (d * d) > 9 * n * Spread(v)
  }

  predicate Spikes(v: seq<nat>, c: nat, threshold: real, root: real -> real)
    requires v != []
  {
    Exceeds(ZScore(c as real, Mean(v), Stdev(v, root)), threshold)
  }

  // Named terms: with them the steps below compose by plain equality.

  function Expanded(n: real, q: real, m: real, s: real): real {
    q - 2.0 * m * s + n * m * m
  }

  function SpreadOf(n: real, q: real, s: real): real {
    n * q - s * s
  }

  lemma ProductAsReal(x: int, y: int)
    ensures (x * y) as real == x as real * y as real
  {
  }

  lemma ExpandOne(n: real, q: real, m: real, s: real, x: real)
    ensures Expanded(n, q, m, s) + SquareOf(x - m) == Expanded(n + 1.0, q + SquareOf(x), m, s + x)
  {
    assert (x - m) * (x - m) == x * x - 2.0 * m * x + m * m;
    assert (n + 1.0) * m * m == n * m * m + m * m;
    assert 2.0 * m * (s + x) == 2.0 * m * s + 2.0 * m * x;
  }

  lemma AddAsReal(q: int, x: int)
    ensures (q + x * x) as real == q as real + SquareOf(x as real)
  {
    ProductAsReal(x, x);
  }

  lemma {:induction false} DeviationExpands(v: seq<nat>, m: real)
    ensures DeviationSum(v, m) == Expanded(|v| as real, SquareSum(v) as real, m, Sum(v) as real)
  {
    if v != [] {
      var w, x := v[..|v| - 1], v[|v| - 1];
      DeviationExpands(w, m);
      ExpandOne(|w| as real, SquareSum(w) as real, m, Sum(w) as real, x as real);
      AddAsReal(SquareSum(w), x);
    }
  }

  lemma SquareOfNonNegative(x: real)
    ensures SquareOf(x) >= 0.0
  {
    SquareNonNegative(x);
  }

  lemma {:induction false} DeviationNonNegative(v: seq<nat>, m: real)
    ensures DeviationSum(v, m) >= 0.0
  {
    if v != [] {
      DeviationNonNegative(v[..|v| - 1], m);
      SquareOfNonNegative(v[|v| - 1] as real - m);
    }
  }

  lemma MeanTimesCount(v: seq<nat>)
    requires v != []
    ensures Times(|v| as real, Mean(v)) == Sum(v) as real
  {
  }

  lemma SpreadAsReal(v: seq<nat>)
    ensures Spread(v) as real == SpreadOf(|v| as real, SquareSum(v) as real, Sum(v) as real)
  {
    SpreadCast(|v|, SquareSum(v), Sum(v));
  }

  lemma SpreadCast(n: int, q: int, s: int)
    ensures (n * q - s * s) as real == SpreadOf(n as real, q as real, s as real)
  {
    ProductAsReal(n, q);
    ProductAsReal(s, s);
  }

  lemma ExpandedAtMean(n: real, q: real, m: real, s: real)
    requires Times(n, m) == s
    ensures Times(n, Expanded(n, q, m, s)) == SpreadOf(n, q, s)
  {
    calc {
      n * (q - 2.0 * m * s + n * m * m);
      n * q - 2.0 * (n * m) * s + (n * m) * (n * m);
      n * q - s * s;
    }
  }

  /** The deviation sum about the mean m, in integers: `n·Σ(v-m)² = n·Q - S²`. */
  lemma DeviationAboutMean(v: seq<nat>, m: real)
    requires Times(|v| as real, m) == Sum(v) as real
    ensures Times(|v| as real, DeviationSum(v, m)) == Spread(v) as real
  {
    DeviationExpands(v, m);
    ExpandedAtMean(|v| as real, SquareSum(v) as real, m, Sum(v) as real);
    SpreadAsReal(v);
  }

  lemma RootOfQuotient(root: real -> real, n: real, dev: real, k: real)
    requires IsRoot(root) && dev >= 0.0 && k > 0.0
    ensures root(dev / k) >= 0.0
    ensures Times(Times(n, k), SquareOf(root(dev / k))) == Times(n, dev)
  {
    var x := dev / k;
    assert x >= 0.0 && k * x == dev;
    assert SquareOf(root(x)) == x;
    assert (n * k) * x == n * (k * x);
  }

  /** The deviation in integers: `n(n-1)·σ² = n·Q - S²`. */
  lemma StdevSquared(v: seq<nat>, root: real -> real)
    requires |v| >= 2 && IsRoot(root)
    ensures Stdev(v, root) >= 0.0
    ensures Times(Times(|v| as real, (|v| - 1) as real), SquareOf(Stdev(v, root))) == Spread(v) as real
  {
    MeanTimesCount(v);
    DeviationAboutMean(v, Mean(v));
    DeviationNonNegative(v, Mean(v));
    RootOfQuotient(root, |v| as real, DeviationSum(v, Mean(v)), (|v| - 1) as real);
  }

  // ---- From the score to the integers ----

  lemma SquareOrder(x: real, y: real)
    requires x >= 0.0 && y >= 0.0
    ensures x > y <==> SquareOf(x) > SquareOf(y)
  {
    if x > y {
      FactorSquares(x, y);
      PositiveProduct(x - y, x + y);
    } else if x < y {
      FactorSquares(y, x);
      PositiveProduct(y - x, y + x);
    }
  }

  lemma FactorSquares(x: real, y: real)
    ensures SquareOf(x) == SquareOf(y) + Times(x - y, x + y)
  {
  }

  lemma ZeroSpread(a: real, sd: real)
    requires a > 0.0 && sd >= 0.0
    ensures Times(a, SquareOf(sd)) >= 0.0
    ensures sd == 0.0 <==> Times(a, SquareOf(sd)) == 0.0
  {
    SquareOrder(sd, 0.0);
    if sd > 0.0 {
      PositiveProduct(a, SquareOf(sd));
    }
  }

  lemma DistributeDifference(n: real, c: real, m: real)
    requires n > 0.0
    ensures Times(n, c - m) == Times(n, c) - Times(n, m)
    ensures Times(n, c - m) == 0.0 <==> c == m
  {
    if c > m {
      PositiveProduct(n, c - m);
    } else if c < m {
      PositiveProduct(n, m - c);
      assert n * (c - m) == -(n * (m - c));
    }
  }

  /** How far `c` is above the mean, times n. */
  lemma DistanceFromMean(v: seq<nat>, c: nat)
    requires v != []
    ensures (|v| * c - Sum(v)) as real == Times(|v| as real, c as real - Mean(v))
    ensures |v| * c - Sum(v) == 0 <==> c as real == Mean(v)
  {
    MeanTimesCount(v);
    ProductAsReal(|v|, c);
    DistributeDifference(|v| as real, c as real, Mean(v));
  }

  lemma ScoreAboveThree(n: real, c: real, mean: real, sd: real)
    requires n > 0.0 && sd > 0.0
    ensures (c - mean) / sd > 3.0 <==> Times(n, c - mean) > Times(n, 3.0 * sd)
  {
    var z, x := (c - mean) / sd, c - mean;
    assert z * sd == x;
    DistributeDifference(sd, z, 3.0);
    assert z > 3.0 <==> x > 3.0 * sd by {
      if z > 3.0 {
        PositiveProduct(z - 3.0, sd);
      } else if z < 3.0 {
        PositiveProduct(3.0 - z, sd);
      }
    }
    DistributeDifference(n, x, 3.0 * sd);
    if x > 3.0 * sd {
      PositiveProduct(n, x - 3.0 * sd);
    } else if x < 3.0 * sd {
      PositiveProduct(n, 3.0 * sd - x);
    }
  }

  lemma SquaredComparison(n: real, k: real, sd: real, d: real)
    requires n > 0.0 && k > 0.0 && sd > 0.0 && d > 0.0
    ensures d > Times(n, 3.0 * sd) <==> Times(k, SquareOf(d)) > 9.0 * Times(n, Times(Times(n, k), SquareOf(sd)))
  {
    var t := n * (3.0 * sd);
    PositiveProduct(n, 3.0 * sd);
    SquareOrder(d, t);
    ScaledOrder(k, SquareOf(d), SquareOf(t));
    SquareOfThreeTimes(n, k, sd);
  }

  lemma ScaledOrder(k: real, x: real, y: real)
    requires k > 0.0
    ensures x > y <==> Times(k, x) > Times(k, y)
  {
    DistributeDifference(k, x, y);
    if x > y {
      PositiveProduct(k, x - y);
    } else if x < y {
      DistributeDifference(k, y, x);
      PositiveProduct(k, y - x);
    }
  }

  lemma SquareOfThreeTimes(n: real, k: real, sd: real)
    ensures Times(k, SquareOf(n * (3.0 * sd))) == 9.0 * Times(n, Times(Times(n, k), SquareOf(sd)))
  {
    var x := sd * sd;
    assert (n * (3.0 * sd)) * (n * (3.0 * sd)) == 9.0 * (n * n * x);
    assert k * (9.0 * (n * n * x)) == 9.0 * (n * ((n * k) * x));
  }

  lemma IntegerComparison(n: int, d: int, spread: int)
    ensures (n - 1) * (d * d) > 9 * n * spread <==>
      Times((n - 1) as real, SquareOf(d as real)) > 9.0 * Times(n as real, spread as real)
  {
    ProductAsReal(d, d);
    ProductAsReal(n - 1, d * d);
    ProductAsReal(n, spread);
    assert 9 * n * spread == 9 * (n * spread);
  }

  lemma SpreadSpike(n: int, d: int, c: real, mean: real, sd: real, spread: int)
    requires n >= 2 && sd > 0.0 && d as real == Times(n as real, c - mean)
    requires Times(Times(n as real, (n - 1) as real), SquareOf(sd)) == spread as real
    ensures (c - mean) / sd > 3.0 <==> d > 0 && (n - 1) * (d * d) > 9 * n * spread
  {
    ScoreAboveThree(n as real, c, mean, sd);
    PositiveProduct(n as real, 3.0 * sd);
    assert Times(n as real, 3.0 * sd) > 0.0;
    if d > 0 {
      SquaredComparison(n as real, (n - 1) as real, sd, d as real);
      IntegerComparison(n, d, spread);
    }
  }

  lemma SingleCount(v: seq<nat>)
    requires |v| == 1
    ensures Spread(v) == 0
  {
    assert v[..0] == [];
    assert Sum(v) == Sum([]) + v[0];
    assert SquareSum(v) == SquareSum([]) + v[0] * v[0];
  }

  /**
   The whole heuristic in integers. For any baseline of n daily counts with sum S and square sum Q,
   the z-score of c exceeds 3 exactly when Q has no spread and n·c differs from S, or it has some,
   n·c is above S, and (n-1)(n·c-S)² > 9n(n·Q-S²).
   */
  lemma SpikeInIntegers(v: seq<nat>, c: nat, root: real -> real)
    requires v != [] && IsRoot(root)
    ensures Spikes(v, c, 3.0, root) <==> IntegerSpike(v, c)
  {
    DistanceFromMean(v, c);
    if |v| < 2 {
      SingleCount(v);
    } else {
      var n, k, sd := |v| as real, (|v| - 1) as real, Stdev(v, root);
      StdevSquared(v, root);
      PositiveProduct(n, k);
      ZeroSpread(Times(n, k), sd);
      if Spread(v) != 0 {
        SpreadSpike(|v|, |v| * c - Sum(v), c as real, Mean(v), sd, Spread(v));
      }
    }
  }
}
