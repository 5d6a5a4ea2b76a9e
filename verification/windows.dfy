/** Python's slice `s[start:stop]` and the trailing window
    `prices[index - period + 1 : index + 1]` that app.py takes at every step. */
module Windows {

  /** A slice bound as Python normalises it for a sequence of length `n`:
      a negative bound counts from the end, then both are clamped to `0..n`. */
  function Bound(i: int, n: nat): (b: nat)
    ensures b <= n
    ensures 0 <= i <= n ==> b == i
    ensures -(n as int) <= i < 0 ==> b == n + i
    ensures i > n ==> b == n
    ensures i < -(n as int) ==> b == 0
  {
    if i < 0 then (if i + n < 0 then 0 else i + n)
    else if i > n then n
    else i
  }

  /** `s[start:stop]` with step 1: the elements from the normalised start
      up to the normalised stop, and none when those bounds cross. */
  function Slice<T>(s: seq<T>, start: int, stop: int): (r: seq<T>)
    ensures |r| <= |s|
    ensures Bound(start, |s|) <= Bound(stop, |s|) ==> |r| == Bound(stop, |s|) - Bound(start, |s|)
    ensures Bound(start, |s|) > Bound(stop, |s|) ==> r == []
    ensures forall k :: 0 <= k < |r| ==> r[k] == s[Bound(start, |s|) + k]
  {
    var lo := Bound(start, |s|);
    var hi := Bound(stop, |s|);
    if lo <= hi then s[lo..hi] else []
  }

  /** The window that `linear_regression` and `standard_deviation` both take:
      the `period` prices ending at `index` when the history holds them, and
      fewer when it ends before `index` (Python does not complain about a
      short slice). */
  function Window(prices: seq<real>, period: int, index: int): (r: seq<real>)
    ensures 0 <= index - period + 1 <= index < |prices| ==> r == prices[index - period + 1 .. index + 1]
    ensures 1 <= period && 0 <= index - period + 1 && |prices| <= index ==> |r| < period
  {
    Slice(prices, index - period + 1, index + 1)
  }

  /** For a full history the window is the `period` points ending at `index`,
      in order, with `prices[index]` last. */
  lemma TrailingWindow(prices: seq<real>, period: int, index: int)
    requires 1 <= period && period - 1 <= index < |prices|
    ensures Window(prices, period, index) == prices[index - period + 1 .. index + 1]
    ensures |Window(prices, period, index)| == period
    ensures Window(prices, period, index)[period - 1] == prices[index]
    ensures forall k :: 0 <= k < period ==>
              Window(prices, period, index)[k] == prices[index - period + 1 + k]
  {
  }

  /** At a loop index (`index >= period`) the window never reaches back to
      `prices[0]`: dropping the first price leaves it unchanged. */
  lemma WindowSkipsFirstPrice(prices: seq<real>, period: int, index: int)
    requires 1 <= period <= index < |prices|
    ensures Window(prices, period, index) == Window(prices[1..], period, index - 1)
  {
    TrailingWindow(prices, period, index);
    TrailingWindow(prices[1..], period, index - 1);
  }

  function Min(x: int, y: int): int
  {
    if x <= y then x else y
  }

  /** The suffix `s[-m:]` selects, by the sign of `m`: the last `m` elements
      when `m` is positive (all of them when there are fewer), the whole
      sequence when `m` is 0 (because `-0 == 0`), and everything after the
      first `-m` elements when `m` is negative. */
  function Suffix<T>(s: seq<T>, m: int): (r: seq<T>)
    ensures |r| <= |s|
  {
    if m > 0 then s[|s| - Min(m, |s|)..]
    else if m == 0 then s
    else s[Min(-m, |s|)..]
  }

  /** `Suffix` is Python's slice `s[-m:]`. */
  lemma SuffixSlice<T>(s: seq<T>, m: int)
    ensures Slice(s, -m, |s|) == Suffix(s, m)
    ensures m > 0 ==> Slice(s, -m, |s|) == s[|s| - Min(m, |s|)..]
    ensures m > 0 ==> |Slice(s, -m, |s|)| == Min(m, |s|)
    ensures m == 0 ==> Slice(s, -m, |s|) == s
    ensures m < 0 ==> Slice(s, -m, |s|) == s[Min(-m, |s|)..]
  {
  }
}
