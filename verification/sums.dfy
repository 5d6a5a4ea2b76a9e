/** Finite sums and means over sequences of reals: the arithmetic that
    `np.mean`, `np.std` and `np.polyfit` perform, taken over exact reals. */
module Sums {

  /** The sum of all elements, accumulated from the front so that element
      `k` of a prefix is element `k` of the whole sequence. */
  function Sum(s: seq<real>): real
  {
    if |s| == 0 then 0.0 else Sum(s[..|s| - 1]) + s[|s| - 1]
  }

  /** The natural number `n` as a real, counted up one at a time. The proofs
      below divide and multiply by lengths through this function rather than
      through a conversion from `int`, which keeps their arithmetic over the
      reals alone. */
  function Count(n: nat): (r: real)
    ensures r >= 0.0
    ensures n > 0 ==> r >= 1.0
  {
    if n == 0 then 0.0 else Count(n - 1) + 1.0
  }

  lemma {:induction false} CountIsLength(n: nat)
    ensures Count(n) == n as real
  {
    if n > 0 {
      CountIsLength(n - 1);
    }
  }

  /** A product under a name of its own. Lemmas that hand a product on to
      their callers state it with `Times`: the solver then recognises the
      caller's product as the same one by matching the symbol, where a bare
      `*` of equal factors makes it search the nonlinear arithmetic. */
  function Times(x: real, y: real): real
  {
    x * y
  }

  /** The arithmetic mean, as `np.mean` computes it. */
  function Mean(s: seq<real>): real
    requires |s| > 0
  {
    Sum(s) / Count(|s|)
  }

  /** The mean times the length is the sum. */
  lemma {:induction false} MeanTimesCount(s: seq<real>)
    requires |s| > 0
    ensures Times(Mean(s), Count(|s|)) == Sum(s)
  {
    QuotientTimes(Sum(s), Count(|s|));
  }

  lemma QuotientTimes(p: real, q: real)
    requires q != 0.0
    ensures (p / q) * q == p
  {
  }

  lemma {:induction false} SumOfConstant(s: seq<real>, v: real)
    requires forall k :: 0 <= k < |s| ==> s[k] == v
    ensures Sum(s) == Count(|s|) * v
  {
    if |s| > 0 {
      SumOfConstant(s[..|s| - 1], v);
    }
  }

  /** The mean of a sequence of equal values is that value. */
  lemma {:induction false} MeanOfConstant(s: seq<real>, v: real)
    requires |s| > 0
    requires forall k :: 0 <= k < |s| ==> s[k] == v
    ensures Mean(s) == v
  {
    SumOfConstant(s, v);
  }

  lemma {:induction false} SumOfNegated(s: seq<real>, t: seq<real>)
    requires |s| == |t|
    requires forall k :: 0 <= k < |s| ==> t[k] == -s[k]
    ensures Sum(t) == -Sum(s)
  {
    if |s| > 0 {
      SumOfNegated(s[..|s| - 1], t[..|t| - 1]);
    }
  }

  /** Negating every element negates the mean. */
  lemma {:induction false} MeanOfNegated(s: seq<real>, t: seq<real>)
    requires |s| == |t| > 0
    requires forall k :: 0 <= k < |s| ==> t[k] == -s[k]
    ensures Mean(t) == -Mean(s)
  {
    SumOfNegated(s, t);
  }

  // ---------------------------------------------------------------------
  // Facts about squares, stated on a sum d + x*x: the solver loses a bare
  // comparison of a square with zero, but reasons linearly about these.

  lemma AddSameSignProduct(d: real, x: real, y: real)
    requires d >= 0.0
    requires (x > 0.0 && y > 0.0) || (x < 0.0 && y < 0.0)
    ensures d + x * y > 0.0
  {
    if x > 0.0 {
      assert x * y > 0.0;
    } else {
      assert x * y > 0.0;
    }
  }

  /** Adding a square never decreases a non-negative value. */
  lemma AddSquareNonNegative(d: real, x: real)
    requires d >= 0.0
    ensures d + x * x >= 0.0
  {
    if x != 0.0 {
      AddSameSignProduct(d, x, x);
    }
  }

  /** Adding the square of a non-zero value makes it positive. */
  lemma AddSquarePositive(d: real, x: real)
    requires d >= 0.0 && x != 0.0
    ensures d + x * x > 0.0
  {
    AddSameSignProduct(d, x, x);
  }

  lemma ProductPositive(a: real, b: real)
    requires a > 0.0 && b > 0.0
    ensures a * b > 0.0
  {
  }
}
