/** `standard_deviation` (app.py:17-19): `np.std` of the trailing window, which
    by default divides by the number of values (the population standard
    deviation). The square root is not computed: it is a parameter `root`,
    and the lemmas that need it to be a square root assume `IsSqrt(root)`. */
module Spread {
  import opened Sums
  import opened Vectors
  import opened Windows
  import opened Regression

  /** The mean of the squared deviations from the mean. */
  function Variance(w: seq<real>): (v: real)
    requires |w| > 0
    ensures v >= 0.0
  {
    DotSelfNonNegative(Centred(w));
    QuotientNonNegative(Dot(Centred(w), Centred(w)), Count(|w|));
    Dot(Centred(w), Centred(w)) / Count(|w|)
  }

  lemma QuotientNonNegative(p: real, q: real)
    requires p >= 0.0 && q > 0.0
    ensures p / q >= 0.0
  {
  }

  lemma QuotientZero(p: real, q: real)
    requires q > 0.0
    ensures p / q == 0.0 <==> p == 0.0
  {
    if p / q == 0.0 {
      QuotientTimes(p, q);
    }
  }

  /** Every value of the window is the same. */
  predicate Constant(w: seq<real>)
  {
    forall k :: 0 <= k < |w| ==> w[k] == w[0]
  }

  /** The variance vanishes exactly on a constant window. */
  lemma {:induction false} VarianceZeroIffConstant(w: seq<real>)
    requires |w| > 0
    ensures Variance(w) == 0.0 <==> Constant(w)
  {
    var c := Centred(w);
    DotSelf(c);
    QuotientZero(Dot(c, c), Count(|w|));
    forall k | 0 <= k < |w|
      ensures c[k] == w[k] - Mean(w)
    {
      CentredAt(w, k);
    }
    if Constant(w) {
      MeanOfConstant(w, w[0]);
    } else {
      var k :| 0 <= k < |w| && w[k] != w[0];
      assert c[k] != 0.0 || c[0] != 0.0;
    }
  }

  /** `root` returns the non-negative square root of every non-negative
      argument, as `np.sqrt` does. */
  ghost predicate IsSqrt(root: real -> real)
  {
    forall v :: 0.0 <= v ==> 0.0 <= root(v) && root(v) * root(v) == v
  }

  /** `np.std(w)`. */
  function StdDev(w: seq<real>, root: real -> real): real
    requires |w| > 0
  {
    root(Variance(w))
  }

  lemma SquareZero(x: real)
    requires x * x == 0.0
    ensures x == 0.0
  {
    if x != 0.0 {
      AddSquarePositive(0.0, x);
    }
  }

  /** The standard deviation is non-negative, squares to the variance, and
      is zero exactly on a constant window. */
  lemma {:induction false} StdDevProperties(w: seq<real>, root: real -> real)
    requires |w| > 0 && IsSqrt(root)
    ensures StdDev(w, root) >= 0.0
    ensures StdDev(w, root) * StdDev(w, root) == Variance(w)
    ensures StdDev(w, root) == 0.0 <==> Constant(w)
  {
    var v := Variance(w);
    assert 0.0 <= root(v) && root(v) * root(v) == v;
    VarianceZeroIffConstant(w);
    if root(v) == 0.0 {
      assert v == 0.0;
    }
    if v == 0.0 {
      SquareZero(root(v));
    }
  }

  lemma RampVarianceAlgebra(N: real, V: real, D: real, b: real, E: real, XX: real)
    requires N > 0.0 && Times(V, N) == D && D == Times(b, E) && E == Times(b, XX)
    requires 12.0 * XX == Times(N, Times(N, N) - 1.0)
    ensures 12.0 * V == Times(Times(b, b), Times(N, N) - 1.0)
  {
    var d := 12.0 * V - b * b * (N * N - 1.0);
    assert N * d == 12.0 * D - b * b * (12.0 * XX);
    if d > 0.0 {
      ProductPositive(N, d);
    } else if d < 0.0 {
      ProductPositive(N, -d);
    }
  }

  /** An exactly linear window on a line of slope b has variance
      b^2 (P^2 - 1)/12. */
  lemma {:induction false} LinearWindowVariance(w: seq<real>, a: real, b: real)
    requires |w| >= 1 && OnLine(w, a, b)
    ensures 12.0 * Variance(w) == Times(Times(b, b), Times(Count(|w|), Count(|w|)) - 1.0)
  {
    var n := |w|;
    var xc := Centred(Positions(n));
    var S := Scale(b, xc);
    CentredOfLine(w, a, b);
    DotScale(S, b, xc);
    DotSymmetric(S, xc);
    DotScale(xc, b, xc);
    CentredSpread(n);
    QuotientTimes(Dot(S, S), Count(n));
    RampVarianceAlgebra(Count(n), Variance(w), Dot(S, S), b, Dot(xc, S), Dot(xc, xc));
  }

  /** An exactly linear window of P >= 2 points, on a line of slope b, has
      variance b^2 (P^2 - 1)/12: positive exactly when the slope is not
      zero. */
  lemma {:induction false} LinearWindowSpread(w: seq<real>, a: real, b: real)
    requires |w| >= 2 && OnLine(w, a, b)
    ensures 12.0 * Variance(w) == Times(Times(b, b), Times(Count(|w|), Count(|w|)) - 1.0)
    ensures Variance(w) > 0.0 <==> b != 0.0
  {
    LinearWindowVariance(w, a, b);
    VarianceZeroIffConstant(w);
    assert Count(1) == 1.0;
    assert w[0] == a && w[1] == a + b;
    if b == 0.0 {
      forall k | 0 <= k < |w|
        ensures w[k] == w[0]
      {
      }
    }
  }

  /** `standard_deviation(prices, period, index)`: given a square root, a
      non-negative value whose square is the window's variance, zero exactly
      on a window of equal prices. */
  function StandardDeviation(prices: seq<real>, period: int, index: int, root: real -> real): (s: real)
    requires 1 <= period && period - 1 <= index < |prices|
    ensures IsSqrt(root) ==> s >= 0.0 && s * s == Variance(Window(prices, period, index))
    ensures IsSqrt(root) ==> (s == 0.0 <==> Constant(Window(prices, period, index)))
  {
    TrailingWindow(prices, period, index);
    StdDevPropertiesWhenSqrt(Window(prices, period, index), root);
    StdDev(Window(prices, period, index), root)
  }

  lemma {:induction false} StdDevPropertiesWhenSqrt(w: seq<real>, root: real -> real)
    requires |w| > 0
    ensures IsSqrt(root) ==> StdDev(w, root) >= 0.0 && StdDev(w, root) * StdDev(w, root) == Variance(w)
    ensures IsSqrt(root) ==> (StdDev(w, root) == 0.0 <==> Constant(w))
  {
    if IsSqrt(root) {
      StdDevProperties(w, root);
    }
  }
}
