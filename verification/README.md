# Pair divergence indicator — a Dafny model

The application downloads the closing prices of two price series, chosen
among currency pairs, stock and volatility indices, gold futures and
cryptocurrencies. At every day `i` from `period` on it does three things:

- It fits a least-squares line to each series' trailing window of `period`
  prices and projects that line to the window's last day.
- It divides the gap between the day's price and that projection by the
  window's population standard deviation.
- It records the difference of the two normalised gaps ("deviation diff").
  It then records either `None` or the mean of the last `ma_period`
  differences ("moving average").

This project models that numeric core (`linear_regression`,
`standard_deviation` and `calculate_metrics` in `app.py`) over exact reals.
It proves what the three functions compute and the laws their results obey.

Modules, one per concept:

- `Sums`: prefix sums, the mean, and the real-valued count.
- `Vectors`: the dot product and pointwise operations, with their
  bilinearity laws.
- `Windows`: Python's slice semantics, the trailing window, and `s[-m:]`.
- `Regression`: the least-squares line against `x = 0..period-1`, and its
  projection `intercept + slope * (period - 1)`.
- `Spread`: the population variance and `np.std`.
- `Numbers`: float64 results at the granularity "finite value or
  infinity/NaN", plus `Option` for the `None` slots.
- `Divergence`: the main loop and its two output lists.

Where the code departs from the usual description of the indicator, the model
follows the code:

- **Empty output.** With `len(pairA) <= period` the loop does not run, and
  both lists are empty. A history of exactly `period` prices gives no entry.
- **Gating.** The `None` gate tests the day index `i >= ma_period`, not the
  number of differences computed so far. So the first defined average can
  cover fewer than `ma_period` differences.
- **Odd `ma_period` values.** `ma_period == 0` averages the whole list,
  because `-0 == 0`. A negative `ma_period` drops the first `-ma_period`
  differences. The average of an empty list is NaN.
- **Zero spread.** A window of equal prices has zero spread. The division
  then yields an infinity or NaN, not an exception. Nothing is validated and
  no error is raised.
- **Ramps.** An exactly linear window with a non-zero slope has a positive
  spread. Its residual is exactly zero, so its deviation is `0`, not
  infinite.
- **Population spread.** `np.std` divides by the number of values
  (population standard deviation, ddof = 0), not by one less.

## Model

| member | source | states |
|---|---|---|
| `Windows.Bound` | app.py:12 | a slice bound is normalised into `0..n`: kept when already inside, `n` when past the end, counted from the end when in `-n..-1`, and `0` when below `-n` |
| `Windows.Slice` | app.py:12 | `s[start:stop]` is empty when the normalised start passes the normalised stop, otherwise has length `stop' - start'`, and its element `k` is `s[start' + k]` |
| `Windows.Window` | app.py:12 | the slice `prices[index - period + 1 : index + 1]` (taken again at app.py:18) is exactly the `period` prices ending at `index` when the history reaches `index`, and shorter than `period` when it ends before `index` |
| `Windows.TrailingWindow` | app.py:12 | for `period - 1 <= index < len(prices)` the window is exactly the `period` prices ending at `index`, in order, with `prices[index]` last |
| `Windows.WindowSkipsFirstPrice` | app.py:27 | at every loop index (`index >= period`) the window does not reach `prices[0]`: dropping the first price leaves it unchanged |
| `Windows.SuffixSlice` | app.py:37 | `s[-m:]` is `Windows.Suffix(s, m)`, the suffix the model averages: the last `min(m, len(s))` elements for positive `m`, the whole list for `m == 0`, and the list without its first `-m` elements for negative `m` |
| `Vectors.SumPositions` | app.py:11 | the abscissae `np.arange(n)` sum to `n(n-1)/2` |
| `Vectors.DotPositions` | app.py:11 | their squares sum to `n(n-1)(2n-1)/6` |
| `Regression.MeanOfPositions` | app.py:11 | the mean abscissa is `(n-1)/2` |
| `Regression.CentredSpread` | app.py:11-13 | the slope's denominator `sum (x - mean x)^2` equals `n(n^2-1)/12`, which is positive for `n >= 2` |
| `Regression.SlopeEquation` | app.py:13 | the slope times `sum (x - mean x)^2` equals `sum (x - mean x)(y - mean y)` |
| `Regression.CentroidSolves` | app.py:13 | the closed-form slope with the line through the centroid solves both normal equations: the residuals sum to zero and are orthogonal to the abscissae |
| `Regression.CentroidNormalEquations` | app.py:13 | any line through the point of means whose slope solves the slope equation satisfies both normal equations |
| `Regression.Fit` | app.py:13 | the fitted line (`np.polyfit(x, y, 1)`) satisfies the normal equations |
| `Regression.SSEDecomposition` | app.py:13 | any other line's squared error is the fitted line's plus the squared distance between the two lines' values |
| `Regression.NormalEquationsMinimise` | app.py:13 | a line solving the normal equations has the least squared error of all lines, and is the only one with that error |
| `Regression.FitIsLeastSquares` | app.py:13 | `Fit` is the unique least-squares line of the window |
| `Regression.SSEZeroIffOnLine` | app.py:13 | a line's squared error is non-negative, and zero exactly when every window value lies on it |
| `Regression.FitOfLine` | app.py:13 | a window lying exactly on a line is fitted by that line |
| `Regression.ProjectionThroughCentroid` | app.py:13-14 | an element law of the reference definition `Projection` (the fitted line at the last abscissa): it equals `mean y + slope * (period - 1 - mean x)`, with `mean x = (period - 1)/2` |
| `Regression.ProjectionOfLine` | app.py:13-14 | on a window lying exactly on `a + b x` the projection is `a + b (period - 1)`, which is the window's last value |
| `Regression.LinearRegression` | app.py:10-14 | `linear_regression` returns the window's mean plus the least-squares slope times `(period - 1)/2`: the fitted line evaluated at the window's last day |
| `Regression.LinearRegressionOfLine` | app.py:10-14 | when the trailing window lies on `a + b x`, `linear_regression` returns `a + b (period - 1)` and `prices[index] - linear_regression(prices, period, index)` is zero |
| `Regression.MeanOfLine` | app.py:13 | the mean of a window lying on `a + b x` is the line's value at the mean abscissa |
| `Regression.CentredOfLine` | app.py:13 | the centred values of a window lying on `a + b x` are `b` times the centred abscissae |
| `Spread.Variance` | app.py:19 | the population variance of a window is never negative |
| `Spread.VarianceZeroIffConstant` | app.py:19 | the variance is zero exactly when all values of the window are equal |
| `Spread.StdDevProperties` | app.py:17-19 | given a square root, the standard deviation is non-negative, squares to the variance, and is zero exactly on a constant window |
| `Spread.LinearWindowVariance` | app.py:19 | a window of `n` values lying on a line of slope `b` has population variance `b^2 (n^2 - 1) / 12` |
| `Spread.LinearWindowSpread` | app.py:17-19 | an exactly linear window of `n` prices has variance `b^2 (n^2 - 1) / 12`, so its spread is positive exactly when its slope `b` is non-zero |
| `Spread.StandardDeviation` | app.py:17-19 | given a square root, `standard_deviation(prices, period, index)` is non-negative, squares to the population variance of the trailing window, and is zero exactly when that window is constant |
| `Spread.StdDevPropertiesWhenSqrt` | app.py:19 | the same three facts about `np.std` of any non-empty window, each conditional on the root being a square root |
| `Numbers.Div` | app.py:29 | a quotient is finite exactly when the divisor is non-zero, and then times the divisor gives the dividend back |
| `Numbers.Sub` | app.py:34 | a difference is finite exactly when both operands are, and then adds back to the minuend |
| `Numbers.SubSwap` | app.py:34 | exchanging the operands of a difference negates it, infinities and NaN included |
| `Numbers.SubSelf` | app.py:34 | a finite value minus itself is zero; an infinity or NaN minus itself is NaN |
| `Numbers.MeanOf` | app.py:37 | `np.mean` is finite exactly on a non-empty list of finite values, and then times the count gives the sum |
| `Numbers.MeanOfNegated` | app.py:37 | negating every value negates the mean, infinities and NaN included |
| `Numbers.MeanOfZeros` | app.py:37 | the mean of a non-empty list of zeros is zero |
| `Divergence.Deviation` | app.py:28-29 | `dev = (prices[i] - lr) / std` is finite exactly when the standard deviation is non-zero, and then times the standard deviation gives back `prices[i] - lr` |
| `Divergence.DiffAt` | app.py:28-34 | `dev_A - dev_B` is finite exactly when both deviations are, and then adding `dev_B` gives back `dev_A` |
| `Divergence.Slot` | app.py:36-39 | the slot appended at loop index `i` is `None` exactly when `i < ma_period` |
| `Divergence.DiffsAt` | app.py:28-34 | an element law of the reference definition `Diffs`: entry `k` of `deviation_diff` is `dev_A - dev_B` at day `period + k` |
| `Divergence.AveragesAppend` | app.py:36-39 | each new difference appends one slot and leaves the earlier slots unchanged |
| `Divergence.MetricsStep` | app.py:27-39 | one loop iteration extends `deviation_diff` by its next entry and `moving_average` by the matching slot, leaving the earlier slots unchanged |
| `Divergence.CalculateMetrics` | app.py:22-41 | the loop returns exactly the entry-wise lists: both have length `max(0, len(pairA) - period)`, and both are empty when `len(pairA) <= period` |
| `Divergence.NoneIff` | app.py:36-39 | an element law of the reference definition `Averages`: slot `k` is `None` exactly when `period + k < ma_period` |
| `Divergence.NoneSlots` | app.py:27-39 | with `n` differences exactly `max(0, min(ma_period, period + n) - period)` slots are `None`, and they are the first ones |
| `Divergence.NoNoneSlots` | app.py:36-39 | an element law of the reference definition `Averages`: with `period >= ma_period` every slot holds a value |
| `Divergence.SlotAverage` | app.py:37 | a defined slot `k` is the mean of the last `min(ma_period, k + 1)` differences up to `k`; for `ma_period == 0` it covers all of them, and for a negative one all but the first `-ma_period` |
| `Divergence.SlotFinite` | app.py:37 | for every `ma_period`, a defined average is finite exactly when the differences it covers are non-empty and all finite: the last `min(ma_period, k + 1)` for positive `ma_period`, all of them for `ma_period == 0`, and for a negative one those after the first `-ma_period`, which must exist |
| `Divergence.DeviationFiniteIff` | app.py:29 | a deviation is finite exactly when its window is not constant |
| `Divergence.DeviationOfLine` | app.py:28-29 | on a window lying on a line of non-zero slope the deviation is exactly zero |
| `Divergence.DiffFiniteIff` | app.py:28-34 | a difference is finite exactly when neither series' window is constant |
| `Divergence.AveragesNegated` | app.py:36-39 | negating every difference keeps the `None` slots and negates every defined average |
| `Divergence.SwapNegates` | app.py:28-37 | exchanging two equally long series negates every difference and every defined average, and keeps the `None` slots |
| `Divergence.IdenticalSeries` | app.py:28-34 | a series against itself gives a zero difference where its window is not constant, and NaN where it is |
| `Divergence.IdenticalAverages` | app.py:34-37 | if no window of a series is constant, every defined average of the series against itself is zero |

## Left out

- Downloading prices with yfinance and extracting them: network I/O through a library that is not part of this model.
- The Streamlit interface, its sliders, charts, tables and download button: these are presentation only. The slider range 2..50 appears only as the precondition `period >= 2`.
- The PDF report and all file output: side effects through fpdf.
- Pandas date alignment, `dropna` and the descending sort of the results table: reshaping of library types after the core has run.
- Floating-point rounding and finite overflow: the model uses exact reals. A float64 value is either a finite real or "infinity or NaN"; the model does not distinguish infinities from NaN.
- The numerical method of `np.polyfit`: the model uses the mathematical least-squares line it returns, not the algorithm.
- The square root inside `np.std`: it is the parameter `root`. The lemmas that need it to be a square root require `IsSqrt(root)`.
- Windows.TrailingWindow: requires `period - 1 <= index < len(prices)` and does not model windows cut short by a negative start. The main loop never takes one.
- Regression.LinearRegression and Divergence.CalculateMetrics: require `period >= 2`. For `period` 0 or 1 the window is empty or has one point, and `np.polyfit` raises or degenerates; neither is modelled.
- Divergence.CalculateMetrics: requires `len(pairB) >= len(pairA)`. Only the length of the first series drives the loop. With a shorter second series, the first day `i >= len(pairB)` calls `linear_regression` on it (app.py:31). Its slice (app.py:12) then holds fewer than `period` prices, so `np.polyfit` (app.py:13) raises a `TypeError` because `x` and `y` differ in length. That error path is not modelled.
- Divergence.Slot: states only when a slot is `None`. What a defined slot averages is stated about the list of slots by `Divergence.SlotAverage` and `Divergence.SlotFinite`.
- Divergence.IdenticalAverages: stated for a positive `ma_period` only. For zero or negative `ma_period`, `Divergence.SlotAverage` gives the slices those averages cover.
