/** Value at Risk and Expected Shortfall by historical simulation
    (`compute_VaR_ES` in var.py).

    Returns are Dafny reals: the estimator's point is the order statistic
    and the tail mean, not floating-point rounding. `HistoricalVaR` and
    `HistoricalES` define the two statistics on the input series;
    `ComputeVaRES` is the estimator itself, step by step, proved to return
    exactly them. The lemmas below state what the statistics mean. */
module RiskEstimator {
  import opened Ordering
  import opened Tally

  // ---------------------------------------------------------------------
  // The tail index
  // ---------------------------------------------------------------------

  /** Python's `int()` on a float: truncation toward zero. */
  function TruncateTowardZero(x: real): (r: int)
    ensures 0.0 <= x ==> r as real <= x < r as real + 1.0
    ensures x < 0.0 ==> r as real - 1.0 < x <= r as real
  {
    if x >= 0.0 then x.Floor else -((-x).Floor)
  }

  /** Distance between two integers. */
  function Dist(a: int, b: int): nat {
    if a <= b then b - a else a - b
  }

  /** The index in [0, n - 1] nearest to `raw`. */
  function Clamp(raw: int, n: nat): (idx: nat)
    requires n >= 1
    ensures idx < n
    ensures forall j :: 0 <= j < n ==> Dist(idx, raw) <= Dist(j, raw)
  {
    if raw < 0 then 0 else if raw >= n then n - 1 else raw
  }

  /** The rank of VaR among `n` sorted returns at this confidence level:
      the tail size (1 - confidenceLevel) * n truncated toward zero, then
      clamped into range. Whatever the confidence level, including levels
      outside (0, 1), the rank is a valid index. */
  function TailIndex(confidenceLevel: real, n: nat): (idx: nat)
    requires n >= 1
    ensures idx < n
  {
    Clamp(TruncateTowardZero((1.0 - confidenceLevel) * n as real), n)
  }

  /** What the rank is, by the size of the tail: a tail smaller than one
      return selects rank 0 (the minimum), a tail of all the returns or more
      selects rank n - 1 (the maximum), and otherwise the rank is the whole
      part of the tail size. */
  lemma TailIndexCases(confidenceLevel: real, n: nat)
    requires n >= 1
    ensures var tail, idx := (1.0 - confidenceLevel) * n as real, TailIndex(confidenceLevel, n);
      && (tail < 1.0 ==> idx == 0)
      && (tail >= n as real ==> idx == n - 1)
      && (1.0 <= tail < n as real ==> idx as real <= tail < idx as real + 1.0)
  {
    var tail := (1.0 - confidenceLevel) * n as real;
    var raw := TruncateTowardZero(tail);
    assert Dist(Clamp(raw, n), raw) <= Dist(0, raw);
    assert Dist(Clamp(raw, n), raw) <= Dist(n - 1, raw);
    if 0 <= raw < n {
      assert Dist(Clamp(raw, n), raw) <= Dist(raw, raw);
    }
  }

  /** Rounding the tail size down (floor) instead of toward zero gives the
      same rank once clamped: the two differ only for negative non-integer
      tail sizes, where truncation gives at most 0 and floor a negative
      number, so the clamp sends both to 0. */
  lemma TailIndexFloorAgrees(confidenceLevel: real, n: nat)
    requires n >= 1
    ensures TailIndex(confidenceLevel, n)
         == Clamp(((1.0 - confidenceLevel) * n as real).Floor, n)
  {
    var tail := (1.0 - confidenceLevel) * n as real;
    var t, f := TruncateTowardZero(tail), tail.Floor;
    assert f as real <= tail < f as real + 1.0;
    assert t != f ==> f < 0 && t <= 0;
    assert Dist(Clamp(t, n), t) <= Dist(0, t);
    assert Dist(Clamp(f, n), f) <= Dist(0, f);
  }

  // ---------------------------------------------------------------------
  // The two statistics
  // ---------------------------------------------------------------------

  /** Historical-simulation VaR: the return at the tail rank of the
      ascending order. It is one of the observed returns. */
  function HistoricalVaR(series: seq<real>, confidenceLevel: real): (v: real)
    requires |series| >= 1
    ensures v in series
  {
    var sorted := Sort(series);
    var k := TailIndex(confidenceLevel, |series|);
    assert sorted[k] in multiset(series);
    sorted[k]
  }

  /** The tail that ES averages always holds at least the VaR return
      itself, so the estimator's zero-count fallback never applies. */
  lemma TailNonEmpty(series: seq<real>, confidenceLevel: real)
    requires |series| >= 1
    ensures CountIf(series, AtMost(HistoricalVaR(series, confidenceLevel))) >= 1
  {
    var v := HistoricalVaR(series, confidenceLevel);
    var i :| 0 <= i < |series| && series[i] == v;
    assert AtMost(v)(series[i]);
    CountIfNone(series, AtMost(v));
  }

  /** Historical-simulation ES: the mean of the returns at or below VaR,
      a tail that is never empty. It lies between the worst return and
      VaR. */
  function HistoricalES(series: seq<real>, confidenceLevel: real): (e: real)
    requires |series| >= 1
    ensures Min(series) <= e <= HistoricalVaR(series, confidenceLevel)
  {
    var v := HistoricalVaR(series, confidenceLevel);
    TailNonEmpty(series, confidenceLevel);
    CountedMeanWithin(series, AtMost(v), Min(series), v);
    SumIf(series, AtMost(v)) / CountIf(series, AtMost(v)) as real
  }

  // ---------------------------------------------------------------------
  // The estimator
  // ---------------------------------------------------------------------

  /** Exchanges the neighbours `a[j - 1]` and `a[j]`. */
  method SwapWithPrevious(a: array<real>, j: nat)
    requires 0 < j < a.Length
    modifies a
    ensures a[j - 1] == old(a[j]) && a[j] == old(a[j - 1])
    ensures forall k :: 0 <= k < a.Length && k != j - 1 && k != j ==> a[k] == old(a[k])
    ensures multiset(a[..]) == multiset(old(a[..]))
  {
    a[j - 1], a[j] := a[j], a[j - 1];
  }

  /** One insertion step: with `a[..i]` ascending, moves `a[i]` down past
      the larger elements before it, leaving `a[..i + 1]` ascending and
      `a[i + 1..]` untouched. */
  method InsertIntoSortedPrefix(a: array<real>, i: nat)
    requires i < a.Length
    requires forall p, q :: 0 <= p < q < i ==> a[p] <= a[q]
    modifies a
    ensures forall p, q :: 0 <= p < q <= i ==> a[p] <= a[q]
    ensures multiset(a[..]) == multiset(old(a[..]))
    ensures forall k :: i < k < a.Length ==> a[k] == old(a[k])
  {
    var j := i;
    while j > 0 && a[j - 1] > a[j]
      invariant 0 <= j <= i
      invariant forall p, q :: 0 <= p < q <= i && p != j && q != j ==> a[p] <= a[q]
      invariant forall q :: j < q <= i ==> a[j] < a[q]
      invariant multiset(a[..]) == multiset(old(a[..]))
      invariant forall k :: i < k < a.Length ==> a[k] == old(a[k])
    {
      SwapWithPrevious(a, j);
      j := j - 1;
    }
  }

  /** Sorts `a` in ascending order, in place (insertion sort). */
  method SortInPlace(a: array<real>)
    modifies a
    ensures Sorted(a[..])
    ensures multiset(a[..]) == multiset(old(a[..]))
  {
    var i := 0;
    while i < a.Length
      invariant 0 <= i <= a.Length
      invariant forall p, q :: 0 <= p < q < i ==> a[p] <= a[q]
      invariant multiset(a[..]) == multiset(old(a[..]))
    {
      InsertIntoSortedPrefix(a, i);
      i := i + 1;
    }
  }

  /** `np.sort`: a new array holding the returns in ascending order. By
      `SortedUnique`, its contents are `Sort(a)`. */
  method SortedCopy(a: seq<real>) returns (b: array<real>)
    ensures fresh(b) && b.Length == |a|
    ensures Sorted(b[..])
    ensures multiset(b[..]) == multiset(a)
  {
    b := new real[|a|](k requires 0 <= k < |a| => a[k]);
    assert b[..] == a;
    SortInPlace(b);
  }

  /** The expected-shortfall scan: walks the sorted returns once, adding
      up and counting those at or below `threshold`. */
  method TailScan(sortedReturns: array<real>, threshold: real)
    returns (esSum: real, count: nat)
    ensures count == CountIf(sortedReturns[..], AtMost(threshold))
    ensures esSum == SumIf(sortedReturns[..], AtMost(threshold))
  {
    esSum, count := 0.0, 0;
    var i := 0;
    while i < sortedReturns.Length
      invariant 0 <= i <= sortedReturns.Length
      invariant count == CountIf(sortedReturns[..i], AtMost(threshold))
      invariant esSum == SumIf(sortedReturns[..i], AtMost(threshold))
    {
      assert sortedReturns[..i + 1][..i] == sortedReturns[..i];
      var x := sortedReturns[i];
      if x <= threshold {
        esSum := esSum + x;
        count := count + 1;
      }
      i := i + 1;
    }
    assert sortedReturns[..i] == sortedReturns[..];
  }

  /** Reading VaR and the tail off any sorted permutation of the returns
      gives the two statistics: the return at the tail rank is VaR, the
      tail holds at least that return, and its mean is ES. */
  lemma SortedPermutationGivesStatistics(series: seq<real>, sorted: seq<real>, confidenceLevel: real,
                                         esSum: real, count: nat)
    requires |series| >= 1 && |sorted| == |series|
    requires Sorted(sorted) && multiset(sorted) == multiset(series)
    requires var v := sorted[TailIndex(confidenceLevel, |series|)];
      esSum == SumIf(sorted, AtMost(v)) && count == CountIf(sorted, AtMost(v))
    ensures sorted[TailIndex(confidenceLevel, |series|)] == HistoricalVaR(series, confidenceLevel)
    ensures count >= 1
    ensures esSum / count as real == HistoricalES(series, confidenceLevel)
  {
    var v := sorted[TailIndex(confidenceLevel, |series|)];
    SortedUnique(sorted, Sort(series));
    TallyPermutation(series, sorted, AtMost(v));
    TailNonEmpty(series, confidenceLevel);
  }

  /** `compute_VaR_ES`: sort, pick the return at the clamped tail rank as
      VaR, then scan the sorted returns adding up and counting those at
      or below VaR; ES is their mean, or VaR should none be counted. */
  method ComputeVaRES(series: seq<real>, confidenceLevel: real)
    returns (valueAtRisk: real, expectedShortfall: real)
    requires |series| >= 1
    ensures valueAtRisk == HistoricalVaR(series, confidenceLevel)
    ensures expectedShortfall == HistoricalES(series, confidenceLevel)
  {
    var sortedReturns := SortedCopy(series);
    var n := |series|;
    var idx := TruncateTowardZero((1.0 - confidenceLevel) * n as real);
    if idx < 0 {
      idx := 0;
    }
    if idx >= n {
      idx := n - 1;
    }
    valueAtRisk := sortedReturns[idx];
    assert idx == TailIndex(confidenceLevel, n);

    var esSum, count := TailScan(sortedReturns, valueAtRisk);
    SortedPermutationGivesStatistics(series, sortedReturns[..], confidenceLevel, esSum, count);
    // The estimator keeps a fallback for an empty tail, but the VaR return
    // itself is always counted.
    assert count >= 1;
    if count > 0 {
      expectedShortfall := esSum / count as real;
    } else {
      expectedShortfall := valueAtRisk;
    }
  }
}
