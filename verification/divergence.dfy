/** `calculate_metrics` (app.py:22-41): for every loop index i from `period`
    up to the length of the first series, the difference of the two series'
    normalised residuals, and after it either `None` or the mean of the most
    recent `ma_period` differences. */
module Divergence {
  import opened Sums
  import opened Windows
  import opened Regression
  import opened Spread
  import opened Numbers

  /** `(prices[i] - linear_regression(...)) / standard_deviation(...)`: the
      day's residual in units of the window's spread; infinite or NaN when
      the spread is zero. */
  function Deviation(prices: seq<real>, period: int, index: int, root: real -> real): (r: Num)
    requires 2 <= period && period - 1 <= index < |prices|
    ensures r.Finite? <==> StandardDeviation(prices, period, index, root) != 0.0
    ensures r.Finite? ==> Times(r.value, StandardDeviation(prices, period, index, root))
                          == prices[index] - LinearRegression(prices, period, index)
  {
    Div(prices[index] - LinearRegression(prices, period, index),
        StandardDeviation(prices, period, index, root))
  }

  /** `dev_A - dev_B` at loop index i: finite exactly when both deviations
      are. */
  function DiffAt(a: seq<real>, b: seq<real>, period: int, i: int, root: real -> real): (r: Num)
    requires 2 <= period <= i < |a| <= |b|
    ensures r.Finite? <==> Deviation(a, period, i, root).Finite? && Deviation(b, period, i, root).Finite?
    ensures r.Finite? ==> r.value + Deviation(b, period, i, root).value == Deviation(a, period, i, root).value
  {
    Sub(Deviation(a, period, i, root), Deviation(b, period, i, root))
  }

  /** The slot appended at loop index i, once `diffs` ends with the
      difference computed there: `None` until i reaches `ma_period`, then
      `np.mean(diffs[-ma_period:])`, the suffix being `Windows.Suffix`
      (see `Windows.SuffixSlice`). */
  function Slot(diffs: seq<Num>, i: int, maPeriod: int): (r: Option<Num>)
    ensures r.None? <==> i < maPeriod
  {
    if i >= maPeriod then Some(MeanOf(Suffix(diffs, maPeriod))) else None
  }

  /** The number of iterations of `range(period, n)`. */
  function Span(n: int, period: int): nat
  {
    if n > period then n - period else 0
  }

  // ---------------------------------------------------------------------
  // The two result lists, defined element by element.

  /** Element k of `deviation_diff` is the difference at loop index
      period + k. */
  function Diffs(a: seq<real>, b: seq<real>, period: int, root: real -> real): (r: seq<Num>)
    requires 2 <= period && |a| <= |b|
    ensures |r| == Span(|a|, period)
  {
    seq(Span(|a|, period), k requires 0 <= k < Span(|a|, period) => DiffAt(a, b, period, period + k, root))
  }

  /** Element k of `moving_average` is the slot appended at loop index
      period + k, when the differences computed so far are `diffs[..k+1]`. */
  function Averages(diffs: seq<Num>, period: int, maPeriod: int): (r: seq<Option<Num>>)
    ensures |r| == |diffs|
  {
    seq(|diffs|, k requires 0 <= k < |diffs| => Slot(diffs[..k + 1], period + k, maPeriod))
  }

  lemma {:induction false} DiffsAt(a: seq<real>, b: seq<real>, period: int, root: real -> real, k: int)
    requires 2 <= period && |a| <= |b| && 0 <= k < Span(|a|, period)
    ensures Diffs(a, b, period, root)[k] == DiffAt(a, b, period, period + k, root)
  {
  }

  /** One more difference appends one more slot and leaves the earlier
      slots alone. */
  lemma {:induction false} AveragesAppend(diffs: seq<Num>, x: Num, period: int, maPeriod: int)
    ensures Averages(diffs + [x], period, maPeriod)
            == Averages(diffs, period, maPeriod) + [Slot(diffs + [x], period + |diffs|, maPeriod)]
  {
    var s := diffs + [x];
    forall k | 0 <= k < |diffs|
      ensures Averages(s, period, maPeriod)[k] == Averages(diffs, period, maPeriod)[k]
    {
      assert s[..k + 1] == diffs[..k + 1];
    }
    assert s[..|diffs| + 1] == s;
  }

  /** One iteration of the loop extends both lists by their next entries:
      the difference at the next loop index, and the slot the gate of
      app.py:36-39 chooses for it. */
  lemma {:induction false} MetricsStep(a: seq<real>, b: seq<real>, period: int, maPeriod: int,
                                       root: real -> real, diffs: seq<Num>, slots: seq<Option<Num>>)
    requires 2 <= period && |a| <= |b| && |diffs| < Span(|a|, period)
    requires diffs == Diffs(a, b, period, root)[..|diffs|]
    requires slots == Averages(diffs, period, maPeriod)
    ensures diffs + [DiffAt(a, b, period, period + |diffs|, root)]
            == Diffs(a, b, period, root)[..|diffs| + 1]
    ensures period + |diffs| >= maPeriod ==>
              slots + [Some(MeanOf(Suffix(diffs + [DiffAt(a, b, period, period + |diffs|, root)], maPeriod)))]
              == Averages(diffs + [DiffAt(a, b, period, period + |diffs|, root)], period, maPeriod)
    ensures period + |diffs| < maPeriod ==>
              slots + [None] == Averages(diffs + [DiffAt(a, b, period, period + |diffs|, root)], period, maPeriod)
  {
    var x := DiffAt(a, b, period, period + |diffs|, root);
    DiffsAt(a, b, period, root, |diffs|);
    AveragesAppend(diffs, x, period, maPeriod);
    var full := Diffs(a, b, period, root);
    assert full[..|diffs| + 1] == full[..|diffs|] + [x];
  }

  datatype Metrics = Metrics(deviationDiff: seq<Num>, movingAverage: seq<Option<Num>>)

  /** `calculate_metrics(pairA_prices, pairB_prices, period, ma_period)`,
      with the loop that builds both lists. */
  method CalculateMetrics(a: seq<real>, b: seq<real>, period: int, maPeriod: int, root: real -> real)
    returns (m: Metrics)
    requires 2 <= period && |a| <= |b|
    ensures m.deviationDiff == Diffs(a, b, period, root)
    ensures m.movingAverage == Averages(m.deviationDiff, period, maPeriod)
    ensures |m.deviationDiff| == |m.movingAverage|
    ensures |a| <= period ==> m.deviationDiff == [] && m.movingAverage == []
    ensures |a| > period ==> |m.deviationDiff| == |a| - period
  {
    var ratesTotal := |a|;
    var deviationDiff: seq<Num> := [];
    var movingAverage: seq<Option<Num>> := [];
    var i := period;
    while i < ratesTotal
      invariant i == period + |deviationDiff|
      invariant |deviationDiff| <= Span(ratesTotal, period)
      invariant deviationDiff == Diffs(a, b, period, root)[..|deviationDiff|]
      invariant movingAverage == Averages(deviationDiff, period, maPeriod)
    {
      // dev_A - dev_B
      MetricsStep(a, b, period, maPeriod, root, deviationDiff, movingAverage);
      var d := DiffAt(a, b, period, i, root);
      deviationDiff := deviationDiff + [d];
      if i >= maPeriod {
        // np.mean(deviation_diff[-ma_period:]), by Windows.SuffixSlice
        movingAverage := movingAverage + [Some(MeanOf(Suffix(deviationDiff, maPeriod)))];
      } else {
        movingAverage := movingAverage + [None];
      }
      i := i + 1;
    }
    m := Metrics(deviationDiff, movingAverage);
  }

  // ---------------------------------------------------------------------
  // Which slots are `None`.

  /** Slot k is `None` exactly when its loop index period + k is still below
      `ma_period`; the test is on the index, not on how many differences
      exist. */
  lemma {:induction false} NoneIff(diffs: seq<Num>, period: int, maPeriod: int, k: int)
    requires 0 <= k < |diffs|
    ensures Averages(diffs, period, maPeriod)[k] == None <==> period + k < maPeriod
  {
  }

  /** The number of `None` slots in a list of slots. */
  function NoneCount(s: seq<Option<Num>>): nat
  {
    if |s| == 0 then 0 else NoneCount(s[..|s| - 1]) + (if s[|s| - 1] == None then 1 else 0)
  }

  /** With n differences, exactly max(0, min(ma_period, period + n) - period)
      slots are `None`, and they come first. */
  lemma {:induction false} NoneSlots(diffs: seq<Num>, period: int, maPeriod: int)
    ensures NoneCount(Averages(diffs, period, maPeriod))
            == Span(Min(maPeriod, period + |diffs|), period)
    ensures forall k :: 0 <= k < |diffs| ==>
              (Averages(diffs, period, maPeriod)[k] == None <==> k < Span(maPeriod, period))
  {
    if |diffs| > 0 {
      var n := |diffs| - 1;
      var s := Averages(diffs, period, maPeriod);
      assert s[..n] == Averages(diffs[..n], period, maPeriod) by {
        forall k | 0 <= k < n
          ensures s[..n][k] == Averages(diffs[..n], period, maPeriod)[k]
        {
          assert diffs[..n][..k + 1] == diffs[..k + 1];
        }
      }
      NoneSlots(diffs[..n], period, maPeriod);
    }
  }

  /** With `period >= ma_period` every slot holds a value. */
  lemma {:induction false} NoNoneSlots(diffs: seq<Num>, period: int, maPeriod: int)
    requires period >= maPeriod
    ensures forall k :: 0 <= k < |diffs| ==> Averages(diffs, period, maPeriod)[k].Some?
  {
  }

  // ---------------------------------------------------------------------
  // What each average covers.

  /** A defined slot k averages the last min(ma_period, k + 1) differences
      up to and including difference k, so the early ones cover fewer than
      `ma_period` values; `ma_period == 0` takes the whole prefix (`-0` is
      `0`) and a negative `ma_period` drops its first `-ma_period` values. */
  lemma {:induction false} SlotAverage(diffs: seq<Num>, period: int, maPeriod: int, k: int)
    requires 0 <= k < |diffs| && period + k >= maPeriod
    ensures maPeriod > 0 ==>
              Averages(diffs, period, maPeriod)[k]
              == Some(MeanOf(diffs[k + 1 - Min(maPeriod, k + 1)..k + 1]))
    ensures maPeriod == 0 ==> Averages(diffs, period, maPeriod)[k] == Some(MeanOf(diffs[..k + 1]))
    ensures maPeriod < 0 ==>
              Averages(diffs, period, maPeriod)[k] == Some(MeanOf(diffs[Min(-maPeriod, k + 1)..k + 1]))
  {
    var p := diffs[..k + 1];
    if maPeriod > 0 {
      assert p[k + 1 - Min(maPeriod, k + 1)..] == diffs[k + 1 - Min(maPeriod, k + 1)..k + 1];
    } else if maPeriod < 0 {
      assert p[Min(-maPeriod, k + 1)..] == diffs[Min(-maPeriod, k + 1)..k + 1];
    }
  }

  /** A defined slot is finite exactly when its window of differences is
      non-empty and all of them are finite. The window is never empty for a
      non-negative `ma_period`; for a negative one it is empty, and the
      average NaN, until more than `-ma_period` differences exist. */
  lemma {:induction false} SlotFinite(diffs: seq<Num>, period: int, maPeriod: int, k: int)
    requires 0 <= k < |diffs| && period + k >= maPeriod
    ensures maPeriod > 0 ==>
              (Averages(diffs, period, maPeriod)[k].value.Finite?
               <==> AllFinite(diffs[k + 1 - Min(maPeriod, k + 1)..k + 1]))
    ensures maPeriod == 0 ==>
              (Averages(diffs, period, maPeriod)[k].value.Finite? <==> AllFinite(diffs[..k + 1]))
    ensures maPeriod < 0 ==>
              (Averages(diffs, period, maPeriod)[k].value.Finite?
               <==> -maPeriod <= k && AllFinite(diffs[-maPeriod..k + 1]))
  {
    SlotAverage(diffs, period, maPeriod, k);
  }

  // ---------------------------------------------------------------------
  // Deviations.

  /** A window of zero spread makes the deviation infinite or NaN; any
      other window gives a finite deviation. */
  lemma {:induction false} DeviationFiniteIff(prices: seq<real>, period: int, index: int, root: real -> real)
    requires 2 <= period && period - 1 <= index < |prices| && IsSqrt(root)
    ensures Deviation(prices, period, index, root).Finite?
            <==> !Constant(Window(prices, period, index))
  {
    TrailingWindow(prices, period, index);
    StdDevProperties(Window(prices, period, index), root);
  }

  /** On a window lying on a line of non-zero slope, the projection hits the
      last price and the deviation is exactly zero. */
  lemma {:induction false} DeviationOfLine(prices: seq<real>, period: int, index: int,
                                           root: real -> real, a: real, b: real)
    requires 2 <= period && period - 1 <= index < |prices| && IsSqrt(root)
    requires OnLine(Window(prices, period, index), a, b) && b != 0.0
    ensures Deviation(prices, period, index, root) == Finite(0.0)
  {
    var w := Window(prices, period, index);
    TrailingWindow(prices, period, index);
    ProjectionOfLine(w, a, b);
    LinearWindowSpread(w, a, b);
    StdDevProperties(w, root);
  }

  /** The difference at a loop index is finite exactly when both windows
      have a non-zero spread. */
  lemma {:induction false} DiffFiniteIff(a: seq<real>, b: seq<real>, period: int, i: int, root: real -> real)
    requires 2 <= period <= i < |a| <= |b| && IsSqrt(root)
    ensures DiffAt(a, b, period, i, root).Finite?
            <==> !Constant(Window(a, period, i)) && !Constant(Window(b, period, i))
  {
    DeviationFiniteIff(a, period, i, root);
    DeviationFiniteIff(b, period, i, root);
  }

  // ---------------------------------------------------------------------
  // Swapping the two series.

  /** `None` stays `None`; a value is negated. */
  function NegSlot(s: Option<Num>): Option<Num>
  {
    if s.Some? then Some(Neg(s.value)) else None
  }

  lemma {:induction false} SuffixNegated(xs: seq<Num>, ys: seq<Num>, m: int)
    requires |xs| == |ys|
    requires forall k :: 0 <= k < |xs| ==> ys[k] == Neg(xs[k])
    ensures |Suffix(ys, m)| == |Suffix(xs, m)|
    ensures forall k :: 0 <= k < |Suffix(xs, m)| ==> Suffix(ys, m)[k] == Neg(Suffix(xs, m)[k])
  {
  }

  /** Negating every difference negates every defined average and leaves
      the `None` slots where they are. */
  lemma {:induction false} AveragesNegated(xs: seq<Num>, ys: seq<Num>, period: int, maPeriod: int)
    requires |xs| == |ys|
    requires forall k :: 0 <= k < |xs| ==> ys[k] == Neg(xs[k])
    ensures forall k :: 0 <= k < |xs| ==>
              Averages(ys, period, maPeriod)[k] == NegSlot(Averages(xs, period, maPeriod)[k])
  {
    forall k | 0 <= k < |xs|
      ensures Averages(ys, period, maPeriod)[k] == NegSlot(Averages(xs, period, maPeriod)[k])
    {
      if period + k >= maPeriod {
        var p := xs[..k + 1];
        var q := ys[..k + 1];
        SuffixNegated(p, q, maPeriod);
        Numbers.MeanOfNegated(Suffix(p, maPeriod), Suffix(q, maPeriod));
      }
    }
  }

  /** Exchanging the two series (of equal length) negates every difference
      and every defined average, and keeps the `None` slots. */
  lemma {:induction false} SwapNegates(a: seq<real>, b: seq<real>, period: int, maPeriod: int, root: real -> real)
    requires 2 <= period && |a| == |b|
    ensures |Diffs(b, a, period, root)| == |Diffs(a, b, period, root)|
    ensures forall k :: 0 <= k < |Diffs(a, b, period, root)| ==>
              Diffs(b, a, period, root)[k] == Neg(Diffs(a, b, period, root)[k])
    ensures forall k :: 0 <= k < |Diffs(a, b, period, root)| ==>
              Averages(Diffs(b, a, period, root), period, maPeriod)[k]
              == NegSlot(Averages(Diffs(a, b, period, root), period, maPeriod)[k])
  {
    var xs := Diffs(a, b, period, root);
    var ys := Diffs(b, a, period, root);
    forall k | 0 <= k < |xs|
      ensures ys[k] == Neg(xs[k])
    {
      DiffsAt(a, b, period, root, k);
      DiffsAt(b, a, period, root, k);
      SubSwap(Deviation(a, period, period + k, root), Deviation(b, period, period + k, root));
    }
    AveragesNegated(xs, ys, period, maPeriod);
  }

  // ---------------------------------------------------------------------
  // Identical series.

  /** Against itself a series gives zero differences wherever its window
      has a spread, and infinity-minus-infinity (NaN) where it has none. */
  lemma {:induction false} IdenticalSeries(a: seq<real>, period: int, root: real -> real)
    requires 2 <= period && IsSqrt(root)
    ensures forall k :: 0 <= k < |Diffs(a, a, period, root)| ==>
              (Diffs(a, a, period, root)[k] == Finite(0.0) <==> !Constant(Window(a, period, period + k)))
    ensures forall k :: 0 <= k < |Diffs(a, a, period, root)| ==>
              (Diffs(a, a, period, root)[k] == NonFinite <==> Constant(Window(a, period, period + k)))
  {
    forall k | 0 <= k < |Diffs(a, a, period, root)|
      ensures Diffs(a, a, period, root)[k] == Finite(0.0) <==> !Constant(Window(a, period, period + k))
      ensures Diffs(a, a, period, root)[k] == NonFinite <==> Constant(Window(a, period, period + k))
    {
      DiffsAt(a, a, period, root, k);
      SubSelf(Deviation(a, period, period + k, root));
      DeviationFiniteIff(a, period, period + k, root);
    }
  }

  /** If no window of a series is constant, its averages against itself are
      zero wherever they are defined over at least one difference. */
  lemma {:induction false} IdenticalAverages(a: seq<real>, period: int, maPeriod: int, root: real -> real)
    requires 2 <= period && IsSqrt(root) && maPeriod > 0
    requires forall i :: period <= i < |a| ==> !Constant(Window(a, period, i))
    ensures forall k :: 0 <= k < |Diffs(a, a, period, root)| && period + k >= maPeriod ==>
              Averages(Diffs(a, a, period, root), period, maPeriod)[k] == Some(Finite(0.0))
  {
    var xs := Diffs(a, a, period, root);
    IdenticalSeries(a, period, root);
    forall k | 0 <= k < |xs| && period + k >= maPeriod
      ensures Averages(xs, period, maPeriod)[k] == Some(Finite(0.0))
    {
      SlotAverage(xs, period, maPeriod, k);
      var lo := k + 1 - Min(maPeriod, k + 1);
      MeanOfZeros(xs[lo..k + 1]);
    }
  }
}
