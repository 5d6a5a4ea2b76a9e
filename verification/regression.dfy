/** `linear_regression` (app.py:10-14): the degree-1 least-squares line fitted
    to a window against x = 0..P-1, evaluated at x = P-1. `np.polyfit`'s
    numerical method is not modelled; its mathematical result is, in the
    centred closed form, and the lemmas below show that this closed form is
    the unique least-squares line.

    Every product the proofs need is taken inside a small lemma over plain
    reals (the `...Algebra` lemmas); the lemmas about sequences only expand
    sums and dot products and hand the pieces over. */
module Regression {
  import opened Sums
  import opened Vectors
  import opened Windows

  /** The line y = intercept + slope * x. */
  datatype Line = Line(intercept: real, slope: real)

  function At(l: Line, x: real): real
  {
    l.intercept + l.slope * x
  }

  /** The values a + b*k of the line a + b*x at the abscissae k = 0..n-1. */
  function Fitted(n: nat, a: real, b: real): (r: seq<real>)
    ensures |r| == n
  {
    Plus(Fill(n, a), Scale(b, Positions(n)))
  }

  lemma {:induction false} FittedAt(n: nat, a: real, b: real, k: int)
    requires 0 <= k < n
    ensures Fitted(n, a, b)[k] == a + b * Count(k)
  {
  }

  /** The window lies exactly on the line a + b*x. */
  predicate OnLine(w: seq<real>, a: real, b: real)
  {
    forall k :: 0 <= k < |w| ==> w[k] == a + b * Count(k)
  }

  /** The deviations w[k] - mean(w). */
  function Centred(w: seq<real>): (r: seq<real>)
    requires |w| > 0
    ensures |r| == |w|
  {
    Minus(w, Fill(|w|, Mean(w)))
  }

  lemma {:induction false} CentredAt(w: seq<real>, k: int)
    requires 0 <= k < |w|
    ensures Centred(w)[k] == w[k] - Mean(w)
  {
  }

  // ---------------------------------------------------------------------
  // The abscissae x = 0..n-1 (`np.arange(period)`).

  lemma HalfSpanAlgebra(m: real, C: real, S: real)
    requires C > 0.0 && Times(m, C) == S && 2.0 * S == Times(C, C - 1.0)
    ensures 2.0 * m == C - 1.0
  {
    var d := 2.0 * m - (C - 1.0);
    assert C * d == 0.0;
    if d > 0.0 {
      ProductPositive(C, d);
    } else if d < 0.0 {
      ProductPositive(C, -d);
    }
  }

  /** The mean abscissa is (n - 1) / 2. */
  lemma {:induction false} MeanOfPositions(n: nat)
    requires n > 0
    ensures 2.0 * Mean(Positions(n)) == Count(n) - 1.0
  {
    SumPositions(n);
    MeanTimesCount(Positions(n));
    HalfSpanAlgebra(Mean(Positions(n)), Count(n), Sum(Positions(n)));
  }

  /** Centred x-spread, over plain reals. */
  lemma SpreadAlgebra(N: real, c: real, SX: real, C: real, XF: real, FX: real,
                      FF: real, SF: real, XX: real)
    requires 2.0 * c == N - 1.0
    requires 2.0 * SX == Times(N, N - 1.0)
    requires 6.0 * C == Times(Times(N, N - 1.0), 2.0 * N - 1.0)
    requires XX == C - XF - FX + FF && XF == FX
    requires FX == Times(c, SX) && FF == Times(c, SF) && SF == Times(N, c)
    ensures 12.0 * XX == Times(N, Times(N, N) - 1.0)
    ensures N >= 2.0 ==> XX > 0.0
  {
    assert SX == N * c;
    assert 12.0 * C == 2.0 * N * (N - 1.0) * (2.0 * N - 1.0);
    assert 12.0 * (c * SX) == 3.0 * N * (N - 1.0) * (N - 1.0);
    if N >= 2.0 {
      ProductPositive(N - 1.0, N + 1.0);
      ProductPositive(N, (N - 1.0) * (N + 1.0));
    }
  }

  /** The abscissae less c = (n-1)/2, squared and summed. */
  lemma {:induction false} ShiftedSpread(n: nat, c: real)
    requires n > 0 && 2.0 * c == Count(n) - 1.0
    ensures 12.0 * Dot(Minus(Positions(n), Fill(n, c)), Minus(Positions(n), Fill(n, c)))
            == Times(Count(n), Times(Count(n), Count(n)) - 1.0)
    ensures n >= 2 ==> Dot(Minus(Positions(n), Fill(n, c)), Minus(Positions(n), Fill(n, c))) > 0.0
  {
    var X := Positions(n);
    var F := Fill(n, c);
    SumPositions(n);
    DotPositions(n);
    DotMinusMinus(X, F, X, F);
    DotSymmetric(X, F);
    DotFill(c, X);
    DotFill(c, F);
    SumFill(n, c);
    SpreadAlgebra(Count(n), c, Sum(X), Dot(X, X), Dot(X, F), Dot(F, X), Dot(F, F), Sum(F),
                  Dot(Minus(X, F), Minus(X, F)));
    if n >= 2 {
      assert Count(n) == Count(n - 1) + 1.0;
    }
  }

  /** The sum of squared centred abscissae, sum (k - (n-1)/2)^2, is
      n(n^2 - 1)/12: positive for n >= 2, so the slope's denominator never
      vanishes on a window of two or more points. */
  lemma {:induction false} CentredSpread(n: nat)
    requires n > 0
    ensures 12.0 * Dot(Centred(Positions(n)), Centred(Positions(n)))
            == Times(Count(n), Times(Count(n), Count(n)) - 1.0)
    ensures n >= 2 ==> Dot(Centred(Positions(n)), Centred(Positions(n))) > 0.0
  {
    MeanOfPositions(n);
    ShiftedSpread(n, Mean(Positions(n)));
  }

  // ---------------------------------------------------------------------
  // Residuals and the normal equations.

  /** The residuals w[k] - (a + b*k) of the line a + b*x. */
  function Residuals(w: seq<real>, a: real, b: real): (r: seq<real>)
    ensures |r| == |w|
  {
    Minus(w, Fitted(|w|, a, b))
  }

  lemma {:induction false} ResidualAt(w: seq<real>, a: real, b: real, k: int)
    requires 0 <= k < |w|
    ensures Residuals(w, a, b)[k] == w[k] - (a + b * Count(k))
  {
    FittedAt(|w|, a, b, k);
  }

  /** The squared error that least squares minimises. */
  function SSE(w: seq<real>, a: real, b: real): real
  {
    Dot(Residuals(w, a, b), Residuals(w, a, b))
  }

  /** The normal equations: the residuals sum to zero and are orthogonal to
      the abscissae. */
  predicate NormalEquations(w: seq<real>, a: real, b: real)
  {
    Sum(Residuals(w, a, b)) == 0.0 && Dot(Positions(|w|), Residuals(w, a, b)) == 0.0
  }

  lemma {:induction false} ResidualSum(w: seq<real>, a: real, b: real)
    ensures Sum(Residuals(w, a, b))
            == Sum(w) - (Sum(Fill(|w|, a)) + Sum(Scale(b, Positions(|w|))))
  {
    SumMinus(w, Fitted(|w|, a, b));
    SumPlus(Fill(|w|, a), Scale(b, Positions(|w|)));
  }

  lemma {:induction false} ResidualMoment(w: seq<real>, a: real, b: real)
    ensures Dot(Positions(|w|), Residuals(w, a, b))
            == Dot(Positions(|w|), w)
               - (Dot(Fill(|w|, a), Positions(|w|)) + Dot(Positions(|w|), Scale(b, Positions(|w|))))
  {
    var X := Positions(|w|);
    DotMinus(X, w, Fitted(|w|, a, b));
    DotPlus(X, Fill(|w|, a), Scale(b, X));
    DotSymmetric(X, Fill(|w|, a));
  }

  /** The residuals of a line through the centroid sum to zero, whatever
      its slope; over plain reals. */
  lemma CentroidSumAlgebra(N: real, m: real, c: real, S: real, SX: real,
                           SR: real, SF: real, SS: real, a: real, b: real)
    requires Times(m, N) == S && Times(c, N) == SX && a == m - b * c
    requires SR == S - (SF + SS) && SF == Times(N, a) && SS == Times(b, SX)
    ensures SR == 0.0
  {
  }

  /** A line through the point (c, m), where m and c are the means of the
      window and of the abscissae, leaves residuals that sum to zero. */
  lemma {:induction false} CentroidResidualSum(w: seq<real>, a: real, b: real, m: real, c: real)
    requires Times(m, Count(|w|)) == Sum(w) && Times(c, Count(|w|)) == Sum(Positions(|w|))
    requires a == m - b * c
    ensures Sum(Residuals(w, a, b)) == 0.0
  {
    var X := Positions(|w|);
    ResidualSum(w, a, b);
    SumFill(|w|, a);
    SumScale(b, X);
    CentroidSumAlgebra(Count(|w|), m, c, Sum(w), Sum(X), Sum(Residuals(w, a, b)),
                       Sum(Fill(|w|, a)), Sum(Scale(b, X)), a, b);
  }

  /** The centroid line with the least-squares slope is orthogonal to the
      abscissae; over plain reals. */
  lemma CentroidMomentAlgebra(N: real, m: real, c: real, S: real, SX: real, C: real,
                              T: real, XX: real, XY: real, MR: real, a: real, b: real,
                              XF: real, FX: real, FF: real, SF: real,
                              XG: real, GX: real, FW: real, FG: real, SG: real,
                              AX: real, XS: real)
    requires Times(m, N) == S && Times(c, N) == SX && a == m - b * c
    requires XX == C - XF - FX + FF && XF == FX
    requires FX == Times(c, SX) && FF == Times(c, SF) && SF == Times(N, c)
    requires XY == T - XG - FW + FG && XG == GX
    requires GX == Times(m, SX) && FW == Times(c, S) && FG == Times(c, SG) && SG == Times(N, m)
    requires Times(b, XX) == XY
    requires MR == T - (AX + XS) && AX == Times(a, SX) && XS == Times(b, C)
    ensures MR == 0.0
  {
    assert XX == C - c * SX;
    assert XY == T - m * SX;
  }

  /** With, in addition, the least-squares slope, the residuals are
      orthogonal to the abscissae. */
  lemma {:induction false} CentroidResidualMoment(w: seq<real>, a: real, b: real, m: real, c: real)
    requires Times(m, Count(|w|)) == Sum(w) && Times(c, Count(|w|)) == Sum(Positions(|w|))
    requires a == m - b * c
    requires Times(b, Dot(Minus(Positions(|w|), Fill(|w|, c)), Minus(Positions(|w|), Fill(|w|, c))))
             == Dot(Minus(Positions(|w|), Fill(|w|, c)), Minus(w, Fill(|w|, m)))
    ensures Dot(Positions(|w|), Residuals(w, a, b)) == 0.0
  {
    var n := |w|;
    var X := Positions(n);
    var F := Fill(n, c);
    var G := Fill(n, m);
    ResidualMoment(w, a, b);
    DotFill(a, X);
    DotScale(X, b, X);
    DotMinusMinus(X, F, X, F);
    DotSymmetric(X, F);
    DotFill(c, X);
    DotFill(c, F);
    SumFill(n, c);
    DotMinusMinus(X, F, w, G);
    DotSymmetric(X, G);
    DotFill(m, X);
    DotFill(c, w);
    DotFill(c, G);
    SumFill(n, m);
    CentroidMomentAlgebra(Count(n), m, c, Sum(w), Sum(X), Dot(X, X), Dot(X, w),
                          Dot(Minus(X, F), Minus(X, F)), Dot(Minus(X, F), Minus(w, G)),
                          Dot(X, Residuals(w, a, b)), a, b,
                          Dot(X, F), Dot(F, X), Dot(F, F), Sum(F),
                          Dot(X, G), Dot(G, X), Dot(F, w), Dot(F, G), Sum(G),
                          Dot(Fill(n, a), X), Dot(X, Scale(b, X)));
  }

  // ---------------------------------------------------------------------
  // The fitted line.

  /** The slope `np.polyfit(x, y, 1)` returns for x = 0..|w|-1:
      sum (x - xbar)(y - ybar) / sum (x - xbar)^2. */
  function Slope(w: seq<real>): real
    requires |w| >= 2
  {
    CentredSpread(|w|);
    var xc := Centred(Positions(|w|));
    Dot(xc, Centred(w)) / Dot(xc, xc)
  }

  /** The slope solves b * sum (x - xbar)^2 = sum (x - xbar)(y - ybar). */
  lemma {:induction false} SlopeEquation(w: seq<real>)
    requires |w| >= 2
    ensures Times(Slope(w), Dot(Centred(Positions(|w|)), Centred(Positions(|w|))))
            == Dot(Centred(Positions(|w|)), Centred(w))
  {
    var xc := Centred(Positions(|w|));
    CentredSpread(|w|);
    QuotientTimes(Dot(xc, Centred(w)), Dot(xc, xc));
  }

  /** The line through the centroid with the slope above satisfies the
      normal equations. */
  lemma {:induction false} CentroidSolves(w: seq<real>, a: real, b: real)
    requires |w| >= 2
    requires b == Slope(w) && a == Mean(w) - b * Mean(Positions(|w|))
    ensures NormalEquations(w, a, b)
  {
    var n := |w|;
    var m := Mean(w);
    var c := Mean(Positions(n));
    MeanTimesCount(w);
    MeanTimesCount(Positions(n));
    SlopeEquation(w);
    assert Centred(Positions(n)) == Minus(Positions(n), Fill(n, c));
    assert Centred(w) == Minus(w, Fill(n, m));
    CentroidNormalEquations(w, a, b, m, c);
  }

  /** Both normal equations for the line through (c, m) whose slope solves
      the slope equation, with the means as plain reals. */
  lemma {:induction false} CentroidNormalEquations(w: seq<real>, a: real, b: real, m: real, c: real)
    requires Times(m, Count(|w|)) == Sum(w) && Times(c, Count(|w|)) == Sum(Positions(|w|))
    requires a == m - b * c
    requires Times(b, Dot(Minus(Positions(|w|), Fill(|w|, c)), Minus(Positions(|w|), Fill(|w|, c))))
             == Dot(Minus(Positions(|w|), Fill(|w|, c)), Minus(w, Fill(|w|, m)))
    ensures NormalEquations(w, a, b)
  {
    CentroidResidualSum(w, a, b, m, c);
    CentroidResidualMoment(w, a, b, m, c);
  }

  /** The least-squares line: the slope above, through the centroid. */
  function Fit(w: seq<real>): (l: Line)
    requires |w| >= 2
    ensures NormalEquations(w, l.intercept, l.slope)
  {
    var b := Slope(w);
    var a := Mean(w) - b * Mean(Positions(|w|));
    CentroidSolves(w, a, b);
    Line(a, b)
  }

  // ---------------------------------------------------------------------
  // Least squares.

  /** The residuals of a second line are those of the first plus the gap
      between the two lines' values. */
  lemma {:induction false} ResidualsShift(w: seq<real>, a: real, b: real, a2: real, b2: real)
    ensures Residuals(w, a2, b2)
            == Plus(Residuals(w, a, b), Minus(Fitted(|w|, a, b), Fitted(|w|, a2, b2)))
  {
  }

  lemma OrthogonalAlgebra(RF: real, RA: real, RS: real, p: real, q: real, SR: real, XR: real)
    requires RF == RA + RS && RA == Times(p, SR) && RS == Times(q, XR)
    requires SR == 0.0 && XR == 0.0
    ensures RF == 0.0
  {
  }

  /** Residuals that solve the normal equations are orthogonal to the
      values of every line. */
  lemma {:induction false} ResidualsOrthogonal(w: seq<real>, a: real, b: real, p: real, q: real)
    requires NormalEquations(w, a, b)
    ensures Dot(Residuals(w, a, b), Fitted(|w|, p, q)) == 0.0
  {
    var R := Residuals(w, a, b);
    var X := Positions(|w|);
    DotPlus(R, Fill(|w|, p), Scale(q, X));
    DotSymmetric(R, Fill(|w|, p));
    DotFill(p, R);
    DotScale(R, q, X);
    DotSymmetric(R, X);
    OrthogonalAlgebra(Dot(R, Fitted(|w|, p, q)), Dot(R, Fill(|w|, p)), Dot(R, Scale(q, X)),
                      p, q, Sum(R), Dot(X, R));
  }

  /** Moving away from a solution of the normal equations adds exactly the
      squared distance between the two lines' values. */
  lemma {:induction false} SSEDecomposition(w: seq<real>, a: real, b: real, a2: real, b2: real)
    requires NormalEquations(w, a, b)
    ensures SSE(w, a2, b2)
            == SSE(w, a, b)
               + Dot(Minus(Fitted(|w|, a, b), Fitted(|w|, a2, b2)),
                     Minus(Fitted(|w|, a, b), Fitted(|w|, a2, b2)))
  {
    var R := Residuals(w, a, b);
    var D := Minus(Fitted(|w|, a, b), Fitted(|w|, a2, b2));
    ResidualsShift(w, a, b, a2, b2);
    DotPlusPlus(R, D, R, D);
    DotSymmetric(R, D);
    DotMinus(R, Fitted(|w|, a, b), Fitted(|w|, a2, b2));
    ResidualsOrthogonal(w, a, b, a, b);
    ResidualsOrthogonal(w, a, b, a2, b2);
  }

  /** A solution of the normal equations is the unique least-squares line: no
      line has a smaller squared error, and one with the same error is it. */
  lemma {:induction false} NormalEquationsMinimise(w: seq<real>, a: real, b: real, a2: real, b2: real)
    requires |w| >= 2
    requires NormalEquations(w, a, b)
    ensures SSE(w, a, b) <= SSE(w, a2, b2)
    ensures SSE(w, a2, b2) == SSE(w, a, b) ==> a2 == a && b2 == b
  {
    var D := Minus(Fitted(|w|, a, b), Fitted(|w|, a2, b2));
    SSEDecomposition(w, a, b, a2, b2);
    DotSelf(D);
    if SSE(w, a2, b2) == SSE(w, a, b) {
      assert D[0] == 0.0 && D[1] == 0.0;
      FittedAt(|w|, a, b, 0);
      FittedAt(|w|, a2, b2, 0);
      FittedAt(|w|, a, b, 1);
      FittedAt(|w|, a2, b2, 1);
      assert Count(1) == 1.0;
    }
  }

  /** `Fit` is the least-squares line, and the only one. */
  lemma {:induction false} FitIsLeastSquares(w: seq<real>, l: Line)
    requires |w| >= 2
    ensures SSE(w, Fit(w).intercept, Fit(w).slope) <= SSE(w, l.intercept, l.slope)
    ensures SSE(w, l.intercept, l.slope) == SSE(w, Fit(w).intercept, Fit(w).slope) ==> l == Fit(w)
  {
    NormalEquationsMinimise(w, Fit(w).intercept, Fit(w).slope, l.intercept, l.slope);
  }

  /** A line fits a window with zero squared error exactly when the window
      lies on it. */
  lemma {:induction false} SSEZeroIffOnLine(w: seq<real>, a: real, b: real)
    ensures SSE(w, a, b) >= 0.0
    ensures SSE(w, a, b) == 0.0 <==> OnLine(w, a, b)
  {
    forall k | 0 <= k < |w|
      ensures Residuals(w, a, b)[k] == 0.0 <==> w[k] == a + b * Count(k)
    {
      ResidualAt(w, a, b, k);
    }
    DotSelf(Residuals(w, a, b));
  }

  /** A window lying exactly on a line is fitted by that line. */
  lemma {:induction false} FitOfLine(w: seq<real>, a: real, b: real)
    requires |w| >= 2 && OnLine(w, a, b)
    ensures Fit(w) == Line(a, b)
  {
    var l := Fit(w);
    SSEZeroIffOnLine(w, a, b);
    SSEZeroIffOnLine(w, l.intercept, l.slope);
    FitIsLeastSquares(w, Line(a, b));
  }

  // ---------------------------------------------------------------------
  // The projection that `linear_regression` returns.

  /** `intercept + slope * (period - 1)`: the fitted line at the window's
      last abscissa. */
  function Projection(w: seq<real>): real
    requires |w| >= 2
  {
    At(Fit(w), Count(|w|) - 1.0)
  }

  /** On an exactly linear window the projection reproduces the last value,
      so the residual numerator `prices[i] - lr` is zero. */
  lemma {:induction false} ProjectionOfLine(w: seq<real>, a: real, b: real)
    requires |w| >= 2 && OnLine(w, a, b)
    ensures Projection(w) == a + b * (Count(|w|) - 1.0)
    ensures Projection(w) == w[|w| - 1]
  {
    FitOfLine(w, a, b);
    assert Count(|w|) == Count(|w| - 1) + 1.0;
  }

  /** The projection in centroid form: the mean of the window plus the slope
      times the distance from the mean abscissa (P - 1)/2 to the last one. */
  lemma {:induction false} ProjectionThroughCentroid(w: seq<real>)
    requires |w| >= 2
    ensures 2.0 * Mean(Positions(|w|)) == Count(|w|) - 1.0
    ensures Projection(w) == Mean(w) + Slope(w) * (Count(|w|) - 1.0 - Mean(Positions(|w|)))
  {
    MeanOfPositions(|w|);
  }

  /** `linear_regression(prices, period, index)`: the mean of the window plus
      the fitted slope times half the window's span, (P - 1)/2. */
  function LinearRegression(prices: seq<real>, period: int, index: int): (r: real)
    requires 2 <= period && period - 1 <= index < |prices|
    ensures r == Mean(Window(prices, period, index))
                 + Slope(Window(prices, period, index)) * ((Count(period) - 1.0) / 2.0)
  {
    TrailingWindow(prices, period, index);
    ProjectionThroughCentroid(Window(prices, period, index));
    Projection(Window(prices, period, index))
  }

  /** A window lying exactly on a line projects to the day's own price, so
      the residual numerator `prices[index] - linear_regression(...)` is
      zero. */
  lemma {:induction false} LinearRegressionOfLine(prices: seq<real>, period: int, index: int, a: real, b: real)
    requires 2 <= period && period - 1 <= index < |prices|
    requires OnLine(Window(prices, period, index), a, b)
    ensures LinearRegression(prices, period, index) == a + b * (Count(period) - 1.0)
    ensures prices[index] - LinearRegression(prices, period, index) == 0.0
  {
    var w := Window(prices, period, index);
    TrailingWindow(prices, period, index);
    assert LinearRegression(prices, period, index) == Projection(w);
    ProjectionOfLine(w, a, b);
  }

  // ---------------------------------------------------------------------
  // Windows lying on a line.

  lemma MeanOfLineAlgebra(N: real, mw: real, a: real, b: real, mp: real, SP: real, SW: real)
    requires N > 0.0 && Times(mw, N) == SW && SW == Times(N, a) + Times(b, SP) && Times(mp, N) == SP
    ensures mw == a + Times(b, mp)
  {
    var d := mw - a - b * mp;
    assert N * d == SW - N * a - b * SP;
    if d > 0.0 {
      ProductPositive(N, d);
    } else if d < 0.0 {
      ProductPositive(N, -d);
    }
  }

  /** The mean of a window on the line a + b*x is the line's value at the
      mean abscissa. */
  lemma {:induction false} MeanOfLine(w: seq<real>, a: real, b: real)
    requires |w| > 0 && OnLine(w, a, b)
    ensures Mean(w) == a + Times(b, Mean(Positions(|w|)))
  {
    var n := |w|;
    var P := Positions(n);
    forall k | 0 <= k < n
      ensures w[k] == Fitted(n, a, b)[k]
    {
      FittedAt(n, a, b, k);
    }
    assert w == Fitted(n, a, b);
    SumPlus(Fill(n, a), Scale(b, P));
    SumFill(n, a);
    SumScale(b, P);
    MeanTimesCount(w);
    MeanTimesCount(P);
    MeanOfLineAlgebra(Count(n), Mean(w), a, b, Mean(P), Sum(P), Sum(w));
  }

  /** The deviations of a window on the line a + b*x from its mean are b
      times those of the abscissae. */
  lemma {:induction false} CentredOfLine(w: seq<real>, a: real, b: real)
    requires |w| > 0 && OnLine(w, a, b)
    ensures Centred(w) == Scale(b, Centred(Positions(|w|)))
  {
    var P := Positions(|w|);
    MeanOfLine(w, a, b);
    forall k | 0 <= k < |w|
      ensures Centred(w)[k] == Scale(b, Centred(P))[k]
    {
      CentredAt(w, k);
      CentredAt(P, k);
    }
  }
}
