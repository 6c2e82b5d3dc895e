/**
 Cosine similarity of two vectors over exact reals: the accumulator loop, the Cauchy-Schwarz bound on
 its accumulators, and what follows for the score.
 */
module Cosine {
  import opened Reals

  type Vector = seq<real>

  function Dot(a: Vector, b: Vector): real
    requires |a| == |b|
  {
    if a == [] then 0.0
    else Dot(a[..|a| - 1], b[..|b| - 1]) + Times(a[|a| - 1], b[|b| - 1])
  }

  /** The similarity of two non-zero vectors of one length; 0 for everything else. */
  ghost function Cosine(a: Vector, b: Vector, root: real -> real): real
    requires IsRoot(root)
  {
    if a == [] || |a| != |b| || Dot(a, a) == 0.0 || Dot(b, b) == 0.0 then 0.0 else
    NormsArePositive(a, b, root);
    Dot(a, b) / Times(root(Dot(a, a)), root(Dot(b, b)))
  }

  method CosineSimilarity(a: Vector, b: Vector, root: real -> real) returns (score: real)
    requires IsRoot(root)
    ensures score == Cosine(a, b, root)
    ensures |a| != |b| ==> score == 0.0
  {
    if a == [] || b == [] || |a| != |b| {
      return 0.0;
    }
    var dot, normA, normB := 0.0, 0.0, 0.0;
    for i := 0 to |a|
      invariant dot == Dot(a[..i], b[..i])
      invariant normA == Dot(a[..i], a[..i])
      invariant normB == Dot(b[..i], b[..i])
    {
      assert a[..i + 1][..i] == a[..i] && b[..i + 1][..i] == b[..i];
      dot := dot + a[i] * b[i];
      normA := normA + a[i] * a[i];
      normB := normB + b[i] * b[i];
    }
    assert a[..|a|] == a && b[..|b|] == b;
    if normA == 0.0 || normB == 0.0 {
      return 0.0;
    }
    NormsArePositive(a, b, root);
    score := dot / Times(root(normA), root(normB));
  }

  // ---- Real arithmetic, one product at a time ----

  lemma ZeroSquare(x: real)
    requires Times(x, x) == 0.0
    ensures x == 0.0
  {
    if x > 0.0 {
      PositiveProduct(x, x);
    } else if x < 0.0 {
      PositiveProduct(-x, -x);
    }
  }

  /** Roots of non-negative numbers are unique. */
  lemma RootUnique(x: real, y: real)
    requires x >= 0.0 && y >= 0.0 && x * x == y * y
    ensures x == y
  {
    if x < y {
      SquareMonotone(x, y);
    } else if y < x {
      SquareMonotone(y, x);
    }
  }

  lemma RootPositive(x: real, root: real -> real)
    requires IsRoot(root) && x > 0.0
    ensures root(x) > 0.0
  {
  }

  lemma SquareBounds(d: real, m: real)
    requires m > 0.0 && Times(d, d) <= Times(m, m)
    ensures -m <= d <= m
  {
    if d > m {
      SquareMonotone(m, d);
    } else if -d > m {
      SquareMonotone(m, -d);
    }
  }

  lemma SquareMonotone(x: real, y: real)
    requires 0.0 <= x < y
    ensures x * x < y * y
  {
    PositiveProduct(y - x, y + x);
    assert y * y - x * x == Times(y - x, y + x);
  }

  lemma QuotientBounds(d: real, m: real)
    requires m > 0.0 && -m <= d <= m
    ensures -1.0 <= d / m <= 1.0
  {
    var q := d / m;
    assert q * m == d;
  }

  // ---- The accumulators ----

  lemma {:induction false} NormNonNegative(a: Vector)
    ensures Dot(a, a) >= 0.0
  {
    if a != [] {
      NormNonNegative(a[..|a| - 1]);
      SquareNonNegative(a[|a| - 1]);
    }
  }

  lemma NormsArePositive(a: Vector, b: Vector, root: real -> real)
    requires IsRoot(root) && Dot(a, a) != 0.0 && Dot(b, b) != 0.0
    ensures root(Dot(a, a)) > 0.0 && root(Dot(b, b)) > 0.0
    ensures Times(root(Dot(a, a)), root(Dot(b, b))) > 0.0
  {
    NormNonNegative(a);
    NormNonNegative(b);
    RootPositive(Dot(a, a), root);
    RootPositive(Dot(b, b), root);
    PositiveProduct(root(Dot(a, a)), root(Dot(b, b)));
  }

  lemma {:induction false} DotCommutes(a: Vector, b: Vector)
    requires |a| == |b|
    ensures Dot(a, b) == Dot(b, a)
  {
    if a != [] {
      DotCommutes(a[..|a| - 1], b[..|b| - 1]);
    }
  }

  /** The squared distance of `p·a` and `q·b`. */
  function Distance(p: real, a: Vector, q: real, b: Vector): real
    requires |a| == |b|
  {
    if a == [] then 0.0
    else Distance(p, a[..|a| - 1], q, b[..|b| - 1]) + Gap(p, a[|a| - 1], q, b[|b| - 1])
  }

  function Gap(p: real, x: real, q: real, y: real): real {
    Times(Times(p, x) - Times(q, y), Times(p, x) - Times(q, y))
  }

  function Quadratic(p: real, q: real, normA: real, dot: real, normB: real): real {
    p * p * normA - 2.0 * p * q * dot + q * q * normB
  }

  lemma QuadraticStep(p: real, q: real, normA: real, dot: real, normB: real, x: real, y: real)
    ensures Quadratic(p, q, normA + Times(x, x), dot + Times(x, y), normB + Times(y, y)) ==
      Quadratic(p, q, normA, dot, normB) + Gap(p, x, q, y)
  {
  }

  lemma {:induction false} DistanceExpanded(p: real, a: Vector, q: real, b: Vector)
    requires |a| == |b|
    ensures Distance(p, a, q, b) == Quadratic(p, q, Dot(a, a), Dot(a, b), Dot(b, b))
  {
    if a != [] {
      var n := |a| - 1;
      DistanceExpanded(p, a[..n], q, b[..n]);
      QuadraticStep(p, q, Dot(a[..n], a[..n]), Dot(a[..n], b[..n]), Dot(b[..n], b[..n]), a[n], b[n]);
    }
  }

  /** A zero distance means equal vectors. */
  lemma {:induction false} DistanceNonNegative(p: real, a: Vector, q: real, b: Vector)
    requires |a| == |b|
    ensures Distance(p, a, q, b) >= 0.0
    ensures Distance(p, a, q, b) == 0.0 ==> forall i :: 0 <= i < |a| ==> Times(p, a[i]) == Times(q, b[i])
  {
    if a != [] {
      var n := |a| - 1;
      DistanceNonNegative(p, a[..n], q, b[..n]);
      var d := Times(p, a[n]) - Times(q, b[n]);
      SquareNonNegative(d);
      if Distance(p, a, q, b) == 0.0 {
        ZeroSquare(d);
        assert forall i :: 0 <= i < n ==> a[i] == a[..n][i] && b[i] == b[..n][i];
      }
    }
  }

  /** With weights `dot` and `normA` the distance is `normA` times the slack of the inequality. */
  lemma SlackIdentity(normA: real, dot: real, normB: real)
    ensures Quadratic(dot, normA, normA, dot, normB) == Times(normA, Times(normA, normB) - Times(dot, dot))
  {
  }

  lemma CancelPositive(k: real, x: real)
    requires k > 0.0 && Times(k, x) >= 0.0
    ensures x >= 0.0
  {
  }

  lemma {:induction false} ZeroNorm(a: Vector, b: Vector)
    requires |a| == |b| && Dot(a, a) == 0.0
    ensures Dot(a, b) == 0.0
  {
    if a != [] {
      var n := |a| - 1;
      NormNonNegative(a[..n]);
      SquareNonNegative(a[n]);
      ZeroSquare(a[n]);
      ZeroNorm(a[..n], b[..n]);
    }
  }

  /** The Cauchy-Schwarz inequality for the loop's accumulators. */
  lemma CauchySchwarz(a: Vector, b: Vector)
    requires |a| == |b|
    ensures Times(Dot(a, b), Dot(a, b)) <= Times(Dot(a, a), Dot(b, b))
  {
    var normA, dot, normB := Dot(a, a), Dot(a, b), Dot(b, b);
    NormNonNegative(a);
    if normA == 0.0 {
      ZeroNorm(a, b);
    } else {
      DistanceExpanded(dot, a, normA, b);
      DistanceNonNegative(dot, a, normA, b);
      SlackIdentity(normA, dot, normB);
      CancelPositive(normA, Times(normA, normB) - Times(dot, dot));
    }
  }

  // ---- The score ----

  lemma RootsSquared(x: real, y: real, rx: real, ry: real)
    requires rx * rx == x && ry * ry == y
    ensures Times(Times(rx, ry), Times(rx, ry)) == Times(x, y)
  {
    assert Times(rx, ry) * Times(rx, ry) == (rx * rx) * (ry * ry);
  }

  /** What the inequality means for the quotient. */
  lemma RatioWithin(d: real, x: real, y: real, rx: real, ry: real)
    requires rx * rx == x && ry * ry == y && Times(rx, ry) > 0.0 && Times(d, d) <= Times(x, y)
    ensures -1.0 <= d / Times(rx, ry) <= 1.0
  {
    RootsSquared(x, y, rx, ry);
    SquareBounds(d, Times(rx, ry));
    QuotientBounds(d, Times(rx, ry));
  }

  lemma Bounded(a: Vector, b: Vector, root: real -> real)
    requires IsRoot(root)
    ensures -1.0 <= Cosine(a, b, root) <= 1.0
  {
    if a != [] && |a| == |b| && Dot(a, a) != 0.0 && Dot(b, b) != 0.0 {
      NormNonNegative(a);
      NormNonNegative(b);
      NormsArePositive(a, b, root);
      CauchySchwarz(a, b);
      RatioWithin(Dot(a, b), Dot(a, a), Dot(b, b), root(Dot(a, a)), root(Dot(b, b)));
    }
  }

  /** The score times the two lengths is the dot product, for vectors of one length. */
  lemma ScoreTimesLengths(a: Vector, b: Vector, root: real -> real)
    requires IsRoot(root) && |a| == |b|
    ensures Dot(a, a) >= 0.0 && Dot(b, b) >= 0.0
    ensures Times(Cosine(a, b, root), Times(root(Dot(a, a)), root(Dot(b, b)))) == Dot(a, b)
  {
    NormNonNegative(a);
    NormNonNegative(b);
    if Dot(a, a) == 0.0 {
      ZeroNorm(a, b);
    } else if Dot(b, b) == 0.0 {
      DotCommutes(a, b);
      ZeroNorm(b, a);
    } else {
      NormsArePositive(a, b, root);
      QuotientTimes(Dot(a, b), Times(root(Dot(a, a)), root(Dot(b, b))));
    }
  }

  lemma QuotientTimes(d: real, m: real)
    requires m > 0.0
    ensures Times(d / m, m) == d
  {
  }

  /** The law of cosines: the score is that of the angle between the vectors, sign and all. */
  lemma LawOfCosines(a: Vector, b: Vector, root: real -> real)
    requires IsRoot(root) && |a| == |b|
    ensures Distance(1.0, a, 1.0, b) ==
      Dot(a, a) + Dot(b, b) - 2.0 * Times(Cosine(a, b, root), Times(root(Dot(a, a)), root(Dot(b, b))))
  {
    DistanceExpanded(1.0, a, 1.0, b);
    ScoreTimesLengths(a, b, root);
  }

  lemma Symmetric(a: Vector, b: Vector, root: real -> real)
    requires IsRoot(root)
    ensures Cosine(a, b, root) == Cosine(b, a, root)
  {
    if |a| == |b| {
      DotCommutes(a, b);
      assert Times(root(Dot(a, a)), root(Dot(b, b))) == Times(root(Dot(b, b)), root(Dot(a, a)));
    }
  }

  function Scale(k: real, a: Vector): (r: Vector)
    ensures |r| == |a|
  {
    if a == [] then [] else Scale(k, a[..|a| - 1]) + [Times(k, a[|a| - 1])]
  }

  lemma {:induction false} ScaleAt(k: real, a: Vector, i: nat)
    requires i < |a|
    ensures Scale(k, a)[i] == Times(k, a[i])
  {
    if i < |a| - 1 {
      ScaleAt(k, a[..|a| - 1], i);
    }
  }

  lemma ScaleTerm(k: real, d: real, dk: real, x: real, y: real)
    requires dk == Times(k, d)
    ensures dk + Times(Times(k, x), y) == Times(k, d + Times(x, y))
  {
  }

  lemma {:induction false} ScaleDot(k: real, a: Vector, b: Vector)
    requires |a| == |b|
    ensures Dot(Scale(k, a), b) == Times(k, Dot(a, b))
  {
    if a != [] {
      var n, s := |a| - 1, Scale(k, a);
      ScaleDot(k, a[..n], b[..n]);
      assert s[..n] == Scale(k, a[..n]) && s[n] == Times(k, a[n]);
      ScaleTerm(k, Dot(a[..n], b[..n]), Dot(s[..n], b[..n]), a[n], b[n]);
    }
  }

  lemma ScaledRoot(k: real, x: real, root: real -> real)
    requires IsRoot(root) && k > 0.0 && x >= 0.0
    ensures Times(k, Times(k, x)) >= 0.0 && root(Times(k, Times(k, x))) == Times(k, root(x))
  {
    var r := root(x);
    assert Times(k, x) >= 0.0;
    assert Times(k, Times(k, x)) >= 0.0;
    assert Times(k, r) * Times(k, r) == Times(k, Times(k, r * r));
    assert Times(k, r) >= 0.0;
    RootUnique(root(Times(k, Times(k, x))), Times(k, r));
  }

  lemma CommonFactor(k: real, d: real, x: real, y: real)
    requires k > 0.0 && Times(x, y) > 0.0
    ensures Times(Times(k, x), y) > 0.0 && Times(k, d) / Times(Times(k, x), y) == d / Times(x, y)
  {
    var m, q := Times(x, y), d / Times(x, y);
    assert Times(Times(k, x), y) == k * m;
    PositiveProduct(k, m);
    assert q * m == d;
    assert q * (k * m) == k * d;
  }

  /** A positive factor does not change the score. */
  lemma ScaleInvariant(k: real, a: Vector, b: Vector, root: real -> real)
    requires IsRoot(root) && k > 0.0
    ensures Cosine(Scale(k, a), b, root) == Cosine(a, b, root)
  {
    if a != [] && |a| == |b| {
      var s := Scale(k, a);
      NormNonNegative(a);
      ScaleDot(k, a, b);
      ScaleDot(k, a, s);
      DotCommutes(a, s);
      ScaleDot(k, a, a);
      if Dot(a, a) != 0.0 && Dot(b, b) != 0.0 {
        NormsArePositive(a, b, root);
        PositiveProduct(k, Dot(a, a));
        PositiveProduct(k, Times(k, Dot(a, a)));
        ScaledRoot(k, Dot(a, a), root);
        CommonFactor(k, Dot(a, b), root(Dot(a, a)), root(Dot(b, b)));
      }
    }
  }

  lemma SelfSimilar(a: Vector, root: real -> real)
    requires IsRoot(root) && Dot(a, a) != 0.0
    ensures Cosine(a, a, root) == 1.0
  {
    NormNonNegative(a);
    NormsArePositive(a, a, root);
    var m := Times(root(Dot(a, a)), root(Dot(a, a)));
    assert m == Dot(a, a) > 0.0;
    assert m / m == 1.0;
  }

  lemma QuotientOne(d: real, m: real)
    requires m > 0.0 && d / m == 1.0
    ensures d == m
  {
    assert (d / m) * m == d;
  }

  lemma Ratio(d: real, n: real, x: real, y: real)
    requires n > 0.0 && Times(d, x) == Times(n, y)
    ensures y == Times(d / n, x)
  {
    var k := d / n;
    assert k * n == d;
    assert Times(n, Times(k, x)) == Times(n, y);
    var gap := Times(k, x) - y;
    assert Times(n, gap) == 0.0;
    if gap > 0.0 {
      PositiveProduct(n, gap);
    } else if gap < 0.0 {
      PositiveProduct(n, -gap);
    }
  }

  lemma PositiveRatio(d: real, n: real)
    requires n > 0.0 && d > 0.0
    ensures d / n > 0.0
  {
  }

  lemma ParallelIsMultiple(a: Vector, b: Vector, d: real, n: real)
    requires |a| == |b| && n > 0.0 && forall i :: 0 <= i < |a| ==> Times(d, a[i]) == Times(n, b[i])
    ensures b == Scale(d / n, a)
  {
    forall i | 0 <= i < |a| ensures b[i] == Scale(d / n, a)[i] {
      Ratio(d, n, a[i], b[i]);
      ScaleAt(d / n, a, i);
    }
  }

  /** The slack identity where the inequality is tight. */
  lemma NoSlack(normA: real, dot: real, normB: real)
    requires Times(dot, dot) == Times(normA, normB)
    ensures Quadratic(dot, normA, normA, dot, normB) == 0.0
  {
    SlackIdentity(normA, dot, normB);
  }

  /** Equality in the Cauchy-Schwarz inequality makes the vectors parallel. */
  lemma TightIsParallel(a: Vector, b: Vector)
    requires |a| == |b| && Times(Dot(a, b), Dot(a, b)) == Times(Dot(a, a), Dot(b, b))
    ensures forall i :: 0 <= i < |a| ==> Times(Dot(a, b), a[i]) == Times(Dot(a, a), b[i])
  {
    NoSlack(Dot(a, a), Dot(a, b), Dot(b, b));
    DistanceExpanded(Dot(a, b), a, Dot(a, a), b);
    DistanceNonNegative(Dot(a, b), a, Dot(a, a), b);
  }

  /** The score 1 forces equality. */
  lemma PerfectIsTight(a: Vector, b: Vector, root: real -> real)
    requires IsRoot(root) && Cosine(a, b, root) == 1.0
    ensures a != [] && |a| == |b| && Dot(a, a) > 0.0 && Dot(a, b) > 0.0
    ensures Times(Dot(a, b), Dot(a, b)) == Times(Dot(a, a), Dot(b, b))
  {
    var ra, rb := root(Dot(a, a)), root(Dot(b, b));
    NormNonNegative(a);
    NormNonNegative(b);
    NormsArePositive(a, b, root);
    QuotientOne(Dot(a, b), Times(ra, rb));
    RootsSquared(Dot(a, a), Dot(b, b), ra, rb);
  }

  lemma PerfectIsParallel(a: Vector, b: Vector, root: real -> real)
    requires IsRoot(root) && Cosine(a, b, root) == 1.0
    ensures exists k :: k > 0.0 && b == Scale(k, a)
  {
    PerfectIsTight(a, b, root);
    TightIsParallel(a, b);
    ParallelIsMultiple(a, b, Dot(a, b), Dot(a, a));
    PositiveRatio(Dot(a, b), Dot(a, a));
  }

  /** The score is 1 exactly for a non-zero vector and a positive multiple of it. */
  lemma PerfectScore(a: Vector, b: Vector, root: real -> real)
    requires IsRoot(root)
    ensures Cosine(a, b, root) == 1.0 <==> (a != [] && Dot(a, a) != 0.0 && exists k :: k > 0.0 && b == Scale(k, a))
  {
    if Cosine(a, b, root) == 1.0 {
      PerfectIsParallel(a, b, root);
    }
    if k :| a != [] && Dot(a, a) != 0.0 && k > 0.0 && b == Scale(k, a) {
      SelfSimilar(a, root);
      ScaleInvariant(k, a, a, root);
      Symmetric(a, b, root);
    }
  }
}
