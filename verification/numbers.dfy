/** The float64 values the main loop produces, at the granularity the model
    needs. Prices, projections and spreads are exact reals; a quotient by a
    zero spread is not: numpy returns an infinity or NaN there (with a
    warning, not an exception), and any later arithmetic or mean that
    touches it is again an infinity or NaN. `NonFinite` stands for all of
    these; a finite value is kept exactly. */
module Numbers {
  import opened Sums

  /** Python's `None` or a value: a moving-average slot. */
  datatype Option<T> = None | Some(value: T)

  datatype Num = Finite(value: real) | NonFinite

  /** `x / y` on float64: infinite or NaN when `y` is zero. */
  function Div(x: real, y: real): (r: Num)
    ensures r.Finite? <==> y != 0.0
    ensures r.Finite? ==> Times(r.value, y) == x
  {
    if y == 0.0 then NonFinite else Finite(x / y)
  }

  /** `x - y`: an infinity or NaN on either side gives one in the result. */
  function Sub(x: Num, y: Num): (r: Num)
    ensures r.Finite? <==> x.Finite? && y.Finite?
    ensures r.Finite? ==> r.value + y.value == x.value
  {
    if x.Finite? && y.Finite? then Finite(x.value - y.value) else NonFinite
  }

  /** `-x`. */
  function Neg(x: Num): (r: Num)
    ensures r.Finite? <==> x.Finite?
    ensures r.Finite? ==> r.value + x.value == 0.0
  {
    if x.Finite? then Finite(-x.value) else NonFinite
  }

  lemma NegNeg(x: Num)
    ensures Neg(Neg(x)) == x
  {
  }

  /** Exchanging the operands of a difference negates it. */
  lemma SubSwap(x: Num, y: Num)
    ensures Sub(y, x) == Neg(Sub(x, y))
  {
  }

  /** A finite value minus itself is zero; a non-finite one stays non-finite
      (infinity minus infinity is NaN). */
  lemma SubSelf(x: Num)
    ensures Sub(x, x) == (if x.Finite? then Finite(0.0) else NonFinite)
  {
  }

  predicate AllFinite(xs: seq<Num>)
  {
    forall k :: 0 <= k < |xs| ==> xs[k].Finite?
  }

  /** The reals behind a sequence of finite values. */
  function Values(xs: seq<Num>): (r: seq<real>)
    requires AllFinite(xs)
    ensures |r| == |xs|
  {
    seq(|xs|, k requires 0 <= k < |xs| => xs[k].value)
  }

  /** `np.mean` of a list of float64 values: NaN for an empty list, and an
      infinity or NaN as soon as one value is one. */
  function MeanOf(xs: seq<Num>): (r: Num)
    ensures r.Finite? <==> |xs| > 0 && AllFinite(xs)
    ensures r.Finite? ==> Times(r.value, Count(|xs|)) == Sum(Values(xs))
  {
    if |xs| > 0 && AllFinite(xs) then
      MeanTimesCount(Values(xs));
      Finite(Mean(Values(xs)))
    else
      NonFinite
  }

  /** Negating every value negates the mean. */
  lemma {:induction false} MeanOfNegated(xs: seq<Num>, ys: seq<Num>)
    requires |xs| == |ys|
    requires forall k :: 0 <= k < |xs| ==> ys[k] == Neg(xs[k])
    ensures MeanOf(ys) == Neg(MeanOf(xs))
  {
    if |xs| > 0 && AllFinite(xs) {
      assert AllFinite(ys);
      Sums.MeanOfNegated(Values(xs), Values(ys));
    } else if |xs| > 0 {
      var k :| 0 <= k < |xs| && !xs[k].Finite?;
      assert !ys[k].Finite?;
    }
  }

  /** The mean of zeros is zero. */
  lemma {:induction false} MeanOfZeros(xs: seq<Num>)
    requires |xs| > 0
    requires forall k :: 0 <= k < |xs| ==> xs[k] == Finite(0.0)
    ensures MeanOf(xs) == Finite(0.0)
  {
    MeanOfConstant(Values(xs), 0.0);
  }
}
