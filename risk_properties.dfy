/** What the historical-simulation statistics mean: VaR is an order
    statistic of the returns, ES equals VaR only on a tail of ties, the clamp decides the
    extreme confidence levels, and neither statistic depends on the order
    of the returns. */
module RiskProperties {
  import opened Ordering
  import opened Tally
  import opened RiskEstimator

  // ---------------------------------------------------------------------
  // VaR as an order statistic
  // ---------------------------------------------------------------------

  /** A predicate that holds of a value holds of every smaller one, as
      "at or below v" and "strictly below v" do. */
  ghost predicate DownwardClosed(p: real -> bool) {
    forall x, y :: x <= y && p(y) ==> p(x)
  }

  /** In a sorted series, a downward-closed predicate that holds at rank k
      holds of at least k + 1 elements, and one that fails at rank k holds
      of at most k. */
  lemma {:induction false} SortedCountAtRank(r: seq<real>, k: nat, p: real -> bool)
    requires Sorted(r) && k < |r|
    requires DownwardClosed(p)
    ensures p(r[k]) ==> CountIf(r, p) >= k + 1
    ensures !p(r[k]) ==> CountIf(r, p) <= k
  {
    var r', last := r[..|r| - 1], r[|r| - 1];
    assert CountIf(r, p) == CountIf(r', p) + (if p(last) then 1 else 0);
    if k == |r| - 1 {
      if p(r[k]) {
        assert forall i :: 0 <= i < |r'| ==> r'[i] <= r[k] && p(r'[i]);
        CountIfAll(r', p);
      }
    } else {
      assert Sorted(r') && r'[k] == r[k] && r[k] <= last;
      SortedCountAtRank(r', k, p);
    }
  }

  /** A value is the element at rank k of the sorted series exactly when
      at most k returns lie strictly below it and more than k lie at or
      below it. */
  lemma OrderStatisticCharacterization(s: seq<real>, k: nat, v: real)
    requires k < |s|
    ensures v == Sort(s)[k]
        <==> CountIf(s, Below(v)) <= k < CountIf(s, AtMost(v))
  {
    var r := Sort(s);
    TallyPermutation(s, r, Below(v));
    TallyPermutation(s, r, AtMost(v));
    assert DownwardClosed(Below(v)) && DownwardClosed(AtMost(v));
    SortedCountAtRank(r, k, Below(v));
    SortedCountAtRank(r, k, AtMost(v));
  }

  /** VaR is the order statistic at the tail rank: at most that many
      returns are strictly worse than VaR, and more than that many are no
      better. */
  lemma VaRIsOrderStatistic(s: seq<real>, confidenceLevel: real)
    requires |s| >= 1
    ensures var k, v := TailIndex(confidenceLevel, |s|), HistoricalVaR(s, confidenceLevel);
      CountIf(s, Below(v)) <= k < CountIf(s, AtMost(v))
  {
    OrderStatisticCharacterization(s, TailIndex(confidenceLevel, |s|), HistoricalVaR(s, confidenceLevel));
  }

  /** How the clamp settles the extreme tails: a tail of fewer than one
      return makes VaR the worst return; a tail of all the returns or more
      makes it the best. */
  lemma VaRAtBoundaries(s: seq<real>, confidenceLevel: real)
    requires |s| >= 1
    ensures var tail := (1.0 - confidenceLevel) * |s| as real;
      && (tail < 1.0 ==> HistoricalVaR(s, confidenceLevel) == Min(s))
      && (tail >= |s| as real ==> HistoricalVaR(s, confidenceLevel) == Max(s))
  {
    TailIndexCases(confidenceLevel, |s|);
    SortExtremes(s);
  }

  /** Scaling by a non-negative factor keeps the order. */
  lemma ScaleMonotone(a: real, b: real, m: real)
    requires a <= b && 0.0 <= m
    ensures a * m <= b * m
  {
    assert b * m - a * m == (b - a) * m;
  }

  /** A confidence level of 1 or more leaves an empty tail; one of 0 or
      less a tail of all the returns or more. */
  lemma TailSizeAtExtremeConfidence(confidenceLevel: real, m: real)
    requires m >= 1.0
    ensures confidenceLevel >= 1.0 ==> (1.0 - confidenceLevel) * m <= 0.0
    ensures confidenceLevel <= 0.0 ==> (1.0 - confidenceLevel) * m >= m
  {
    if confidenceLevel >= 1.0 {
      ScaleMonotone(1.0 - confidenceLevel, 0.0, m);
    }
    if confidenceLevel <= 0.0 {
      ScaleMonotone(1.0, 1.0 - confidenceLevel, m);
    }
  }

  /** A confidence level of 1 or more leaves a tail of less than one
      return, so the rank is 0; one of 0 or less leaves a tail of all the
      returns or more, so the rank is n - 1. */
  lemma TailIndexAtExtremeConfidence(confidenceLevel: real, n: nat)
    requires n >= 1
    ensures confidenceLevel >= 1.0 ==> TailIndex(confidenceLevel, n) == 0
    ensures confidenceLevel <= 0.0 ==> TailIndex(confidenceLevel, n) == n - 1
  {
    TailIndexCases(confidenceLevel, n);
    TailSizeAtExtremeConfidence(confidenceLevel, n as real);
  }

  /** Confidence levels outside (0, 1), which the estimator does not reject:
      at 1 or more VaR is the worst return, at 0 or less the best. */
  lemma VaRAtExtremeConfidence(s: seq<real>, confidenceLevel: real)
    requires |s| >= 1
    ensures confidenceLevel >= 1.0 ==> HistoricalVaR(s, confidenceLevel) == Min(s)
    ensures confidenceLevel <= 0.0 ==> HistoricalVaR(s, confidenceLevel) == Max(s)
  {
    TailIndexAtExtremeConfidence(confidenceLevel, |s|);
    SortExtremes(s);
  }

  // ---------------------------------------------------------------------
  // ES as a tail mean
  // ---------------------------------------------------------------------

  /** The mean of a positive count of values equals `v` exactly when the
      sum is `count` copies of `v`. */
  lemma MeanEquals(sum: real, count: nat, v: real)
    requires count >= 1
    ensures sum / count as real == v <==> sum == count as real * v
  {
    var c := count as real;
    assert (sum / c) * c == sum;
  }

  /** ES equals VaR exactly when every return at or below VaR is equal to
      it (a tail made of ties at VaR); otherwise ES is strictly below VaR. */
  lemma ESEqualsVaRIffTiesOnly(s: seq<real>, confidenceLevel: real)
    requires |s| >= 1
    ensures var v := HistoricalVaR(s, confidenceLevel);
      HistoricalES(s, confidenceLevel) == v <==> (forall i :: 0 <= i < |s| && s[i] <= v ==> s[i] == v)
    ensures var v := HistoricalVaR(s, confidenceLevel);
      HistoricalES(s, confidenceLevel) != v ==> HistoricalES(s, confidenceLevel) < v
  {
    var v := HistoricalVaR(s, confidenceLevel);
    var count := CountIf(s, AtMost(v));
    TailNonEmpty(s, confidenceLevel);
    SumIfReachesBound(s, AtMost(v), v);
    ScaledIsProduct(count, v);
    MeanEquals(SumIf(s, AtMost(v)), count, v);
    assert AllCountedAre(s, AtMost(v), v)
        <==> forall i :: 0 <= i < |s| && s[i] <= v ==> s[i] == v;
  }

  // ---------------------------------------------------------------------
  // Order of the returns
  // ---------------------------------------------------------------------

  /** VaR and ES depend only on the multiset of returns (and the
      confidence level): any reordering of the series gives the same
      pair. */
  lemma StatisticsPermutationInvariant(s: seq<real>, t: seq<real>, confidenceLevel: real)
    requires |s| >= 1
    requires multiset(s) == multiset(t)
    ensures |t| == |s|
    ensures HistoricalVaR(t, confidenceLevel) == HistoricalVaR(s, confidenceLevel)
    ensures HistoricalES(t, confidenceLevel) == HistoricalES(s, confidenceLevel)
  {
    assert |s| == |multiset(s)| == |multiset(t)| == |t|;
    SortPermutationInvariant(s, t);
    TallyPermutation(s, t, AtMost(HistoricalVaR(s, confidenceLevel)));
  }

  // ---------------------------------------------------------------------
  // Worked examples
  // ---------------------------------------------------------------------

  /** The three worst returns of the eight-return example, all at or below
      -0.01, adding up to -0.09. */
  lemma ThreeWorstReturnsTally(h: seq<real>)
    requires h == [-0.05, -0.03, -0.01]
    ensures CountIf(h, AtMost(-0.01)) == 3
    ensures SumIf(h, AtMost(-0.01)) == -0.09
  {
    var p := AtMost(-0.01);
    assert h[..2][..1][..0] == [];
    assert CountIf(h[..1], p) == 1 && SumIf(h[..1], p) == -0.05;
    assert h[..2][..1] == h[..1];
    assert CountIf(h[..2], p) == 2 && SumIf(h[..2], p) == -0.08;
    assert h[..2] == h[..|h| - 1];
  }

  /** The five best returns of the eight-return example are all above
      -0.01: none is counted and nothing is added. */
  lemma FiveBestReturnsTally(t: seq<real>)
    requires t == [0.00, 0.02, 0.04, 0.06, 0.08]
    ensures CountIf(t, AtMost(-0.01)) == 0
    ensures SumIf(t, AtMost(-0.01)) == 0.0
  {
    assert forall i :: 0 <= i < |t| ==> !AtMost(-0.01)(t[i]);
    CountIfNone(t, AtMost(-0.01));
  }

  /** The tail of the eight-return example at VaR = -0.01: the three
      worst returns, adding up to -0.09. */
  lemma EightReturnsTail(r: seq<real>)
    requires r == [-0.05, -0.03, -0.01, 0.00, 0.02, 0.04, 0.06, 0.08]
    ensures CountIf(r, AtMost(-0.01)) == 3
    ensures SumIf(r, AtMost(-0.01)) == -0.09
  {
    var head, rest := r[..3], r[3..];
    assert r == head + rest;
    TallyAppend(head, rest, AtMost(-0.01));
    ThreeWorstReturnsTally(head);
    FiveBestReturnsTally(rest);
  }

  /** Eight returns, in any order, at 75% confidence: the tail size is 2,
      so VaR is the third-worst return, -0.01, and ES the mean of the
      three worst, -0.03. */
  lemma EightReturnsExample(s: seq<real>)
    requires multiset(s) == multiset([-0.05, -0.03, -0.01, 0.00, 0.02, 0.04, 0.06, 0.08])
    ensures HistoricalVaR(s, 0.75) == -0.01
    ensures HistoricalES(s, 0.75) == -0.03
  {
    var r := [-0.05, -0.03, -0.01, 0.00, 0.02, 0.04, 0.06, 0.08];
    assert |s| == |multiset(s)| == 8;
    EightReturnsTail(r);
    EightSortedStatistics(s, r);
  }

  /** The statistics of any series whose sorted form has -0.01 at rank 2
      and a tail of three returns adding up to -0.09. */
  lemma EightSortedStatistics(s: seq<real>, r: seq<real>)
    requires |s| == 8 && |r| == 8
    requires Sorted(r) && multiset(r) == multiset(s)
    requires r[2] == -0.01
    requires CountIf(r, AtMost(-0.01)) == 3 && SumIf(r, AtMost(-0.01)) == -0.09
    ensures HistoricalVaR(s, 0.75) == -0.01
    ensures HistoricalES(s, 0.75) == -0.03
  {
    TailIndexCases(0.75, 8);
    assert TailIndex(0.75, 8) == 2;
    SortedPermutationGivesStatistics(s, r, 0.75, -0.09, 3);
  }

  /** Three returns at 95% confidence: the tail is smaller than one
      return, so VaR and ES are both the worst return. */
  lemma ThreeReturnsExample(r: seq<real>)
    requires r == [0.01, 0.02, 0.03]
    ensures HistoricalVaR(r, 0.95) == 0.01
    ensures HistoricalES(r, 0.95) == 0.01
  {
    TailIndexCases(0.95, 3);
    assert TailIndex(0.95, 3) == 0;
    SortedPermutationGivesStatistics(r, r, 0.95, SumIf(r, AtMost(0.01)), CountIf(r, AtMost(0.01)));
    ESEqualsVaRIffTiesOnly(r, 0.95);
  }

  /** A confidence level of 0.999 over ten returns leaves a tail of 0.01
      returns: the rank is clamped to 0 and VaR is the worst return. */
  lemma NearCertainConfidenceExample(s: seq<real>)
    requires |s| == 10
    ensures TailIndex(0.999, 10) == 0
    ensures HistoricalVaR(s, 0.999) == Min(s)
  {
    TailIndexCases(0.999, 10);
    assert TailIndex(0.999, |s|) == 0;
    SortExtremes(s);
  }
}
