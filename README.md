# Historical-simulation VaR and Expected Shortfall

A Dafny model of the risk estimator in `var.py`: `compute_VaR_ES` takes a
series of portfolio returns and a confidence level and returns two tail-risk
statistics.

- **Value at Risk (VaR)** is the return at the tail rank of the ascending
  order. The tail rank is the tail size `(1 - confidence_level) * n`,
  truncated to an integer by Python's `int()` and clamped into `[0, n - 1]`.
- **Expected Shortfall (ES)** is the mean of the returns at or below VaR,
  gathered by one scan over the sorted returns with a running sum and count.
  When nothing is counted, the code falls back to VaR.

The project has four modules, one per file:

- `ordering.dfy` (`Ordering`): ascending order. It holds the reference sort
  `Sort`, a proof that the sorted permutation of a series is unique, and the
  minimum and maximum.
- `tally.dfy` (`Tally`): counting and summing the elements that satisfy a
  predicate, defined element by element as the scan visits them. It also
  holds the facts about these tallies: splitting over concatenation,
  invariance under reordering, and bounds on the sum.
- `risk_estimator.dfy` (`RiskEstimator`): the estimator itself.
  - The specification functions `TailIndex`, `HistoricalVaR` and
    `HistoricalES`. ES is proved to lie between the worst return and VaR.
  - The imperative code: `SortedCopy` / `SortInPlace` for `np.sort`,
    `TailScan` for the ES loop, and `ComputeVaRES` for the whole function.
  - `ComputeVaRES` is proved to return exactly `HistoricalVaR` and
    `HistoricalES`.
- `risk_properties.dfy` (`RiskProperties`): what the two statistics mean.
  - VaR is an order statistic.
  - The clamp settles the extreme tails.
  - ES equals VaR only on ties.
  - Both statistics ignore the order of the returns.
  - Worked examples.

Returns are Dafny `real`s, so the model is exact arithmetic over the rationals.

In two places the code departs from the usual textbook description of the
estimator, and the model follows the code:

- **The tail index uses truncation, not floor.** The usual floor-based
  definition of the historical quantile takes `floor((1 - c) * n)`, while
  `var.py:21` uses `int()`, which truncates toward zero. The two differ only
  for negative non-integer tail sizes, where truncation gives at most 0 and
  floor a negative number, so the clamp sends both to 0.
  `TailIndexFloorAgrees` proves that they always give the same rank.
- **Empty input has no error path.** A careful implementation would reject
  an empty series, but `compute_VaR_ES` has no such check. For `n = 0`, the
  clamp sets `idx` to `-1` and the function reads `sorted_returns[-1]` on an
  empty array. Compiled with `@njit`, that read is not bounds-checked. The
  model therefore makes `|series| >= 1` a precondition and has no error
  result.

## Model

| member | source | states |
|---|---|---|
| Ordering.Sort | var.py:18 | the sorted returns: ascending, same multiset of values, same length |
| Ordering.SortedUnique | var.py:18 | two ascending series with the same multiset of values are equal, so any correct sort returns exactly `Sort` |
| Ordering.SortPermutationInvariant | var.py:18 | reordering the input does not change its sorted form |
| Ordering.SortExtremes | var.py:18 | the first sorted return is the minimum of the series and the last one the maximum |
| Tally.CountIf | var.py:30-34 | the number of returns counted by the scan never exceeds the length of the series |
| Tally.SumIf | var.py:29-33 | the sum of the counted returns, built from the left as the scan builds `es_sum`; when nothing is counted, nothing is added |
| Tally.TallyPermutation | var.py:31-34 | the scan's count and sum depend only on the multiset of returns, not on their order |
| Tally.CountedMeanWithin | var.py:35-36 | the mean `es_sum / count` of a non-empty set of counted returns, each within [lo, hi], lies within [lo, hi] |
| Tally.SumIfReachesBound | var.py:31-36 | when no counted return exceeds a bound, the sum equals count times the bound exactly when every counted return equals it |
| RiskEstimator.TruncateTowardZero | var.py:21 | `int()` of a float: for non-negative x the result is the largest integer not above x, for negative x the smallest not below it (truncation toward zero) |
| RiskEstimator.Clamp | var.py:22-25 | the clamped index lies in [0, n - 1] and is the index in that range nearest to the raw value |
| RiskEstimator.TailIndex | var.py:19-25 | for every confidence level, including ones outside (0, 1), the tail rank is a valid index into the sorted returns |
| RiskEstimator.TailIndexCases | var.py:21-25 | a tail size below 1 gives rank 0; a tail size of n or more gives rank n - 1; otherwise the rank is the whole part of the tail size |
| RiskEstimator.TailIndexFloorAgrees | var.py:21-25 | truncating and flooring the tail size give the same rank once clamped |
| RiskEstimator.HistoricalVaR | var.py:18-26 | VaR is one of the observed returns |
| RiskEstimator.HistoricalES | var.py:29-38 | ES is the mean of the returns at or below VaR, over a tail that `TailNonEmpty` shows is never empty; it lies between the worst return and VaR |
| RiskEstimator.TailNonEmpty | var.py:29-38 | at least one return (VaR itself) is at or below VaR, so the zero-count fallback is never taken |
| RiskEstimator.InsertIntoSortedPrefix | var.py:18 | one insertion step: with the first i elements ascending, afterwards the first i + 1 are ascending, the elements after position i are unchanged, and the array holds the same multiset of values |
| RiskEstimator.SortInPlace | var.py:18 | after the call the array is ascending and holds the same multiset of values |
| RiskEstimator.SortedCopy | var.py:18 | a fresh array of the same length, ascending, with the same multiset of values as the input |
| RiskEstimator.TailScan | var.py:29-34 | the loop's final count and sum are the number and the sum of the sorted returns at or below the threshold |
| RiskEstimator.SortedPermutationGivesStatistics | var.py:18-36 | on any ascending permutation of the series, the return at the tail rank is VaR, the count of returns at or below it is at least 1, and their sum over that count is ES |
| RiskEstimator.ComputeVaRES | var.py:10-39 | the function returns exactly the historical VaR and the historical ES (the mean of the returns at or below VaR) of its input |
| RiskProperties.OrderStatisticCharacterization | var.py:18-26 | a value is the k-th sorted return exactly when at most k returns are strictly below it and more than k are at or below it |
| RiskProperties.VaRIsOrderStatistic | var.py:18-26 | at most tail-rank returns are strictly worse than VaR, and more than tail-rank returns are no better |
| RiskProperties.VaRAtBoundaries | var.py:21-26 | a tail size below one return makes VaR the minimum; a tail size of all the returns or more makes it the maximum |
| RiskProperties.TailSizeAtExtremeConfidence | var.py:21 | a confidence level of 1 or more makes the tail size `(1 - c) * n` at most 0; a level of 0 or less makes it at least n |
| RiskProperties.TailIndexAtExtremeConfidence | var.py:21-25 | a confidence level of 1 or more gives rank 0; a level of 0 or less gives rank n - 1 |
| RiskProperties.VaRAtExtremeConfidence | var.py:21-26 | confidence levels outside (0, 1) are not rejected: at 1 or more VaR is the minimum, at 0 or less the maximum |
| RiskProperties.ESEqualsVaRIffTiesOnly | var.py:29-36 | ES equals VaR exactly when every return at or below VaR equals VaR; otherwise ES is strictly below VaR |
| RiskProperties.StatisticsPermutationInvariant | var.py:18-39 | reordering the returns changes neither VaR nor ES |
| RiskProperties.EightReturnsExample | var.py:10-39 | for the eight returns -0.05 … 0.08, in any order, at confidence 0.75: VaR = -0.01 and ES = -0.03 |
| RiskProperties.ThreeReturnsExample | var.py:10-39 | for returns 0.01, 0.02, 0.03 at confidence 0.95: VaR = ES = 0.01, the minimum |
| RiskProperties.NearCertainConfidenceExample | var.py:21-26 | at confidence 0.999 over ten returns, the rank is clamped to 0 and VaR is the minimum |

## Left out

- `main` (var.py:41-100) and the `if __name__ == "__main__"` guard that calls it (var.py:102-103): the interactive prompts, printing and the histogram
  plot are presentation only.
- The price download through `yf.download` (var.py:60) is external I/O.
- The `dropna` and `pct_change` cleaning steps (var.py:66, var.py:73) are
  external data preparation; the model assumes a series with no missing values.
- The weighted aggregation `returns.dot(weights)` (var.py:77) is one library
  call, so there is no portfolio-weight logic to model. The estimator's input
  is the already aggregated return series.
- `@njit` compilation (var.py:9) does not change the results, except for the
  missing bounds check on empty input described above and the int64
  conversion of the tail size (below).
- Floating point: IEEE rounding of the product, the running sum and the
  division, and NaN or infinite returns, are not modelled. Returns are exact
  reals. Rounding can change which return is picked, not only blur a value:
  whenever `(1 - c) * n` is an integer in exact arithmetic but falls just
  below it in doubles, the source's rank is one lower than the model's. For
  example, `(1 - 0.9) * 10` is `0.9999999999999998` in doubles, so the source
  picks rank 0 where the model's `TailIndex(0.9, 10)` is 1.
- RiskEstimator.TruncateTowardZero: does not model the overflow of `int()`
  into a 64-bit integer under `@njit` for tail sizes beyond the int64 range,
  because the model's integers are unbounded.
- RiskEstimator.SortInPlace: is an insertion sort, not NumPy's sort
  algorithm. Only its result is modelled, and by `Ordering.SortedUnique`
  every correct sort has the same result.
- RiskEstimator.ComputeVaRES: the input array is modelled as a read-only
  sequence, since `compute_VaR_ES` never writes to it. Aliasing between the
  input and the sorted copy does not arise.
