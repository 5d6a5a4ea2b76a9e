/** Sequences of reals as vectors: the dot product and the pointwise
    operations that least squares and the variance are built from, with the
    bilinearity laws that let the proofs about them stay linear. */
module Vectors {
  import opened Sums

  /** The dot product, accumulated from the front like `Sum`. */
  function Dot(u: seq<real>, v: seq<real>): real
    requires |u| == |v|
  {
    if |u| == 0 then 0.0 else Dot(u[..|u| - 1], v[..|v| - 1]) + u[|u| - 1] * v[|u| - 1]
  }

  /** The pointwise sum. */
  function Plus(u: seq<real>, v: seq<real>): (r: seq<real>)
    requires |u| == |v|
    ensures |r| == |u|
  {
    seq(|u|, k requires 0 <= k < |u| => u[k] + v[k])
  }

  /** The pointwise difference. */
  function Minus(u: seq<real>, v: seq<real>): (r: seq<real>)
    requires |u| == |v|
    ensures |r| == |u|
  {
    seq(|u|, k requires 0 <= k < |u| => u[k] - v[k])
  }

  /** Every element multiplied by `c`. */
  function Scale(c: real, u: seq<real>): (r: seq<real>)
    ensures |r| == |u|
  {
    seq(|u|, k requires 0 <= k < |u| => c * u[k])
  }

  /** `n` copies of `c`. */
  function Fill(n: nat, c: real): (r: seq<real>)
    ensures |r| == n
  {
    seq(n, k => c)
  }

  /** The abscissae 0, 1, ..., n-1 that `np.arange(n)` produces. */
  function Positions(n: nat): (r: seq<real>)
    ensures |r| == n
  {
    seq(n, k requires 0 <= k => Count(k))
  }

  // ---------------------------------------------------------------------
  // Bilinearity.

  lemma {:induction false} DotSymmetric(u: seq<real>, v: seq<real>)
    requires |u| == |v|
    ensures Dot(u, v) == Dot(v, u)
  {
    if |u| > 0 {
      DotSymmetric(u[..|u| - 1], v[..|v| - 1]);
    }
  }

  lemma {:induction false} DotPlus(u: seq<real>, v: seq<real>, z: seq<real>)
    requires |u| == |v| == |z|
    ensures Dot(u, Plus(v, z)) == Dot(u, v) + Dot(u, z)
  {
    if |u| > 0 {
      var n := |u| - 1;
      assert Plus(v, z)[..n] == Plus(v[..n], z[..n]);
      DotPlus(u[..n], v[..n], z[..n]);
    }
  }

  lemma {:induction false} DotMinus(u: seq<real>, v: seq<real>, z: seq<real>)
    requires |u| == |v| == |z|
    ensures Dot(u, Minus(v, z)) == Dot(u, v) - Dot(u, z)
  {
    if |u| > 0 {
      var n := |u| - 1;
      assert Minus(v, z)[..n] == Minus(v[..n], z[..n]);
      DotMinus(u[..n], v[..n], z[..n]);
    }
  }

  lemma ScaleStep(d: real, e: real, c: real, x: real, y: real)
    requires d == c * e
    ensures d + x * (c * y) == c * (e + x * y)
  {
  }

  lemma {:induction false} DotScale(u: seq<real>, c: real, v: seq<real>)
    requires |u| == |v|
    ensures Dot(u, Scale(c, v)) == Times(c, Dot(u, v))
  {
    if |u| > 0 {
      var n := |u| - 1;
      forall k | 0 <= k < n
        ensures Scale(c, v)[..n][k] == Scale(c, v[..n])[k]
      {
        assert v[..n][k] == v[k];
      }
      assert Scale(c, v)[..n] == Scale(c, v[..n]);
      DotScale(u[..n], c, v[..n]);
      ScaleStep(Dot(u[..n], Scale(c, v[..n])), Dot(u[..n], v[..n]), c, u[n], v[n]);
    }
  }

  /** Both sides expanded: (u + v).(x + y) = u.x + u.y + v.x + v.y. */
  lemma {:induction false} DotPlusPlus(u: seq<real>, v: seq<real>, x: seq<real>, y: seq<real>)
    requires |u| == |v| == |x| == |y|
    ensures Dot(Plus(u, v), Plus(x, y)) == Dot(u, x) + Dot(u, y) + Dot(v, x) + Dot(v, y)
  {
    DotPlus(Plus(u, v), x, y);
    DotSymmetric(Plus(u, v), x);
    DotSymmetric(Plus(u, v), y);
    DotPlus(x, u, v);
    DotPlus(y, u, v);
    DotSymmetric(x, u);
    DotSymmetric(x, v);
    DotSymmetric(y, u);
    DotSymmetric(y, v);
  }

  /** Both sides expanded: (u - v).(x - y) = u.x - u.y - v.x + v.y. */
  lemma {:induction false} DotMinusMinus(u: seq<real>, v: seq<real>, x: seq<real>, y: seq<real>)
    requires |u| == |v| == |x| == |y|
    ensures Dot(Minus(u, v), Minus(x, y)) == Dot(u, x) - Dot(u, y) - Dot(v, x) + Dot(v, y)
  {
    DotMinus(Minus(u, v), x, y);
    DotSymmetric(Minus(u, v), x);
    DotSymmetric(Minus(u, v), y);
    DotMinus(x, u, v);
    DotMinus(y, u, v);
    DotSymmetric(x, u);
    DotSymmetric(x, v);
    DotSymmetric(y, u);
    DotSymmetric(y, v);
  }

  /** A dot product with a constant vector is a multiple of a sum. */
  lemma {:induction false} DotFill(c: real, v: seq<real>)
    ensures Dot(Fill(|v|, c), v) == Times(c, Sum(v))
  {
    if |v| > 0 {
      var n := |v| - 1;
      assert Fill(|v|, c)[..n] == Fill(n, c);
      DotFill(c, v[..n]);
      ScaleStep(Dot(Fill(n, c), v[..n]), Sum(v[..n]), c, 1.0, v[n]);
    }
  }

  lemma {:induction false} SumPlus(u: seq<real>, v: seq<real>)
    requires |u| == |v|
    ensures Sum(Plus(u, v)) == Sum(u) + Sum(v)
  {
    if |u| > 0 {
      var n := |u| - 1;
      assert Plus(u, v)[..n] == Plus(u[..n], v[..n]);
      SumPlus(u[..n], v[..n]);
    }
  }

  lemma {:induction false} SumMinus(u: seq<real>, v: seq<real>)
    requires |u| == |v|
    ensures Sum(Minus(u, v)) == Sum(u) - Sum(v)
  {
    if |u| > 0 {
      var n := |u| - 1;
      assert Minus(u, v)[..n] == Minus(u[..n], v[..n]);
      SumMinus(u[..n], v[..n]);
    }
  }

  lemma {:induction false} SumScale(c: real, u: seq<real>)
    ensures Sum(Scale(c, u)) == Times(c, Sum(u))
  {
    if |u| > 0 {
      var n := |u| - 1;
      forall k | 0 <= k < n
        ensures Scale(c, u)[..n][k] == Scale(c, u[..n])[k]
      {
        assert u[..n][k] == u[k];
      }
      assert Scale(c, u)[..n] == Scale(c, u[..n]);
      SumScale(c, u[..n]);
      ScaleStep(Sum(Scale(c, u[..n])), Sum(u[..n]), c, 1.0, u[n]);
    }
  }

  lemma {:induction false} SumFill(n: nat, c: real)
    ensures Sum(Fill(n, c)) == Times(Count(n), c)
  {
    SumOfConstant(Fill(n, c), c);
  }

  // ---------------------------------------------------------------------
  // Squared length.

  lemma {:induction false} DotSelfNonNegative(u: seq<real>)
    ensures Dot(u, u) >= 0.0
  {
    if |u| > 0 {
      DotSelfNonNegative(u[..|u| - 1]);
      AddSquareNonNegative(Dot(u[..|u| - 1], u[..|u| - 1]), u[|u| - 1]);
    }
  }

  /** A non-zero element makes u.u positive. */
  lemma {:induction false} DotSelfPositive(u: seq<real>, k: int)
    requires 0 <= k < |u| && u[k] != 0.0
    ensures Dot(u, u) > 0.0
  {
    var n := |u| - 1;
    if k < n {
      assert u[..n][k] == u[k];
      DotSelfPositive(u[..n], k);
      AddSquareNonNegative(Dot(u[..n], u[..n]), u[n]);
    } else {
      DotSelfNonNegative(u[..n]);
      AddSquarePositive(Dot(u[..n], u[..n]), u[n]);
    }
  }

  lemma {:induction false} DotSelfOfZeros(u: seq<real>)
    requires forall k :: 0 <= k < |u| ==> u[k] == 0.0
    ensures Dot(u, u) == 0.0
  {
    if |u| > 0 {
      DotSelfOfZeros(u[..|u| - 1]);
    }
  }

  /** u.u is a sum of squares: never negative, and zero exactly when every
      element is zero. */
  lemma {:induction false} DotSelf(u: seq<real>)
    ensures Dot(u, u) >= 0.0
    ensures Dot(u, u) == 0.0 <==> forall k :: 0 <= k < |u| ==> u[k] == 0.0
  {
    DotSelfNonNegative(u);
    if forall k :: 0 <= k < |u| ==> u[k] == 0.0 {
      DotSelfOfZeros(u);
    } else {
      var k :| 0 <= k < |u| && u[k] != 0.0;
      DotSelfPositive(u, k);
    }
  }

  // ---------------------------------------------------------------------
  // Sums over the abscissae 0..n-1.

  lemma {:induction false} PositionsPrefix(n: nat)
    requires n > 0
    ensures Positions(n)[..n - 1] == Positions(n - 1)
  {
  }

  lemma SumPositionsStep(m: real, S: real, M: real)
    requires 2.0 * S == Times(m, m - 1.0) && M == m + 1.0
    ensures 2.0 * (S + m) == Times(M, M - 1.0)
  {
  }

  /** 0 + 1 + ... + (n-1) = n(n-1)/2. */
  lemma {:induction false} SumPositions(n: nat)
    ensures 2.0 * Sum(Positions(n)) == Times(Count(n), Count(n) - 1.0)
  {
    if n > 0 {
      PositionsPrefix(n);
      SumPositions(n - 1);
      SumPositionsStep(Count(n - 1), Sum(Positions(n - 1)), Count(n));
    }
  }

  lemma SquaresStep(m: real, S2: real, M: real)
    requires 6.0 * S2 == Times(Times(m, m - 1.0), 2.0 * m - 1.0) && M == m + 1.0
    ensures 6.0 * (S2 + m * m) == Times(Times(M, M - 1.0), 2.0 * M - 1.0)
  {
  }

  /** 0^2 + 1^2 + ... + (n-1)^2 = n(n-1)(2n-1)/6. */
  lemma {:induction false} DotPositions(n: nat)
    ensures 6.0 * Dot(Positions(n), Positions(n))
            == Times(Times(Count(n), Count(n) - 1.0), 2.0 * Count(n) - 1.0)
  {
    if n > 0 {
      PositionsPrefix(n);
      DotPositions(n - 1);
      SquaresStep(Count(n - 1), Dot(Positions(n - 1), Positions(n - 1)), Count(n));
    }
  }
}
