/** Counting and summing the elements of a series that satisfy a predicate.

    The expected-shortfall scan keeps exactly these two running quantities
    (a count and a sum of the returns at or below VaR), so both are defined
    element by element from the left, as the scan visits them. */
module Tally {

  /** The predicate "at or below `v`": the tail the estimator averages. */
  function AtMost(v: real): real -> bool {
    x => x <= v
  }

  /** The predicate "strictly below `v`". */
  function Below(v: real): real -> bool {
    x => x < v
  }

  /** Number of elements of `s` satisfying `p`. */
  function CountIf(s: seq<real>, p: real -> bool): (k: nat)
    ensures k <= |s|
  {
    if s == [] then 0
    else CountIf(s[..|s| - 1], p) + (if p(s[|s| - 1]) then 1 else 0)
  }

  /** Sum of the elements of `s` satisfying `p`. Nothing counted means
      nothing added. */
  function SumIf(s: seq<real>, p: real -> bool): (r: real)
    ensures CountIf(s, p) == 0 ==> r == 0.0
  {
    if s == [] then 0.0
    else SumIf(s[..|s| - 1], p) + (if p(s[|s| - 1]) then s[|s| - 1] else 0.0)
  }

  /** Both tallies split over a concatenation. */
  lemma {:induction false} TallyAppend(a: seq<real>, b: seq<real>, p: real -> bool)
    ensures CountIf(a + b, p) == CountIf(a, p) + CountIf(b, p)
    ensures SumIf(a + b, p) == SumIf(a, p) + SumIf(b, p)
  {
    if b == [] {
      assert a + b == a;
    } else {
      var b' := b[..|b| - 1];
      assert (a + b)[..|a + b| - 1] == a + b';
      TallyAppend(a, b', p);
    }
  }

  /** Removing the element at position `j` takes away exactly its own
      contribution to both tallies. */
  lemma TallyRemoveAt(t: seq<real>, j: nat, p: real -> bool)
    requires j < |t|
    ensures CountIf(t, p) == CountIf(t[..j] + t[j + 1..], p) + (if p(t[j]) then 1 else 0)
    ensures SumIf(t, p) == SumIf(t[..j] + t[j + 1..], p) + (if p(t[j]) then t[j] else 0.0)
  {
    var before, after := t[..j], t[j + 1..];
    var upTo := t[..j + 1];
    assert upTo[..j] == before && upTo[j] == t[j];
    assert CountIf(upTo, p) == CountIf(before, p) + (if p(t[j]) then 1 else 0);
    assert SumIf(upTo, p) == SumIf(before, p) + (if p(t[j]) then t[j] else 0.0);
    assert t == upTo + after;
    TallyAppend(upTo, after, p);
    TallyAppend(before, after, p);
  }

  /** Removing the element at position `j` removes one copy of it from
      the multiset. */
  lemma RemoveAtMultiset(t: seq<real>, j: nat)
    requires j < |t|
    ensures multiset(t[..j] + t[j + 1..]) == multiset(t) - multiset{t[j]}
  {
    assert t == t[..j] + [t[j]] + t[j + 1..];
  }

  /** Both tallies depend only on the multiset of the series, not on the
      order of its elements. */
  lemma {:induction false} TallyPermutation(s: seq<real>, t: seq<real>, p: real -> bool)
    requires multiset(s) == multiset(t)
    ensures CountIf(s, p) == CountIf(t, p)
    ensures SumIf(s, p) == SumIf(t, p)
    decreases |s|
  {
    assert |s| == |multiset(s)| == |multiset(t)| == |t|;
    if s != [] {
      var x := s[|s| - 1];
      var s' := s[..|s| - 1];
      assert s == s' + [x];
      assert x in multiset(t);
      var j :| 0 <= j < |t| && t[j] == x;
      var t' := t[..j] + t[j + 1..];
      RemoveAtMultiset(t, j);
      assert multiset(s') == multiset(s) - multiset{x};
      TallyPermutation(s', t', p);
      TallyRemoveAt(t, j, p);
    }
  }

  /** Every element satisfies `p` exactly when all of them are counted. */
  lemma {:induction false} CountIfAll(s: seq<real>, p: real -> bool)
    ensures CountIf(s, p) == |s| <==> forall i :: 0 <= i < |s| ==> p(s[i])
  {
    if s != [] {
      var s' := s[..|s| - 1];
      CountIfAll(s', p);
      assert forall i :: 0 <= i < |s'| ==> s'[i] == s[i];
    }
  }

  /** No element satisfies `p` exactly when none is counted. */
  lemma {:induction false} CountIfNone(s: seq<real>, p: real -> bool)
    ensures CountIf(s, p) == 0 <==> forall i :: 0 <= i < |s| ==> !p(s[i])
  {
    if s != [] {
      var s' := s[..|s| - 1];
      CountIfNone(s', p);
      assert forall i :: 0 <= i < |s'| ==> s'[i] == s[i];
    }
  }

  /** `k` copies of `v` added up; equal to `k * v` (see ScaledIsProduct),
      but defined by repeated addition so that tallies stay linear. */
  function Scaled(k: nat, v: real): real {
    if k == 0 then 0.0 else Scaled(k - 1, v) + v
  }

  lemma {:induction false} ScaledIsProduct(k: nat, v: real)
    ensures Scaled(k, v) == k as real * v
  {
    if k > 0 {
      ScaledIsProduct(k - 1, v);
      assert (k - 1) as real * v + v == k as real * v;
    }
  }

  /** If no counted element exceeds `hi`, the sum is at most `hi` times
      the count. */
  lemma {:induction false} SumIfUpper(s: seq<real>, p: real -> bool, hi: real)
    requires forall i :: 0 <= i < |s| && p(s[i]) ==> s[i] <= hi
    ensures SumIf(s, p) <= Scaled(CountIf(s, p), hi)
  {
    if s != [] {
      var s' := s[..|s| - 1];
      assert forall i :: 0 <= i < |s'| ==> s'[i] == s[i];
      SumIfUpper(s', p, hi);
    }
  }

  /** If no counted element is below `lo`, the sum is at least `lo` times
      the count. */
  lemma {:induction false} SumIfLower(s: seq<real>, p: real -> bool, lo: real)
    requires forall i :: 0 <= i < |s| && p(s[i]) ==> lo <= s[i]
    ensures Scaled(CountIf(s, p), lo) <= SumIf(s, p)
  {
    if s != [] {
      var s' := s[..|s| - 1];
      assert forall i :: 0 <= i < |s'| ==> s'[i] == s[i];
      SumIfLower(s', p, lo);
    }
  }

  /** Every element of `s` that satisfies `p` equals `v`. */
  predicate AllCountedAre(s: seq<real>, p: real -> bool, v: real) {
    forall i :: 0 <= i < |s| && p(s[i]) ==> s[i] == v
  }

  /** If no counted element exceeds `hi`, the sum reaches `hi` times the
      count exactly when every counted element equals `hi`. */
  lemma {:induction false} SumIfReachesBound(s: seq<real>, p: real -> bool, hi: real)
    requires forall i :: 0 <= i < |s| && p(s[i]) ==> s[i] <= hi
    ensures SumIf(s, p) == Scaled(CountIf(s, p), hi) <==> AllCountedAre(s, p, hi)
  {
    if s != [] {
      var s', x := s[..|s| - 1], s[|s| - 1];
      assert forall i :: 0 <= i < |s'| ==> s'[i] == s[i];
      SumIfReachesBound(s', p, hi);
      SumIfUpper(s', p, hi);
      assert AllCountedAre(s, p, hi) <==> AllCountedAre(s', p, hi) && (p(x) ==> x == hi);
    }
  }

  /** A mean of `count` values each within [lo, hi] is within [lo, hi]. */
  lemma MeanWithin(sum: real, count: nat, lo: real, hi: real)
    requires count >= 1
    requires count as real * lo <= sum <= count as real * hi
    ensures lo <= sum / count as real <= hi
  {
    var c := count as real;
    var q := sum / c;
    assert q * c == sum;
  }

  /** The mean of the counted elements, when there are any and each lies
      within [lo, hi], lies within [lo, hi]. */
  lemma CountedMeanWithin(s: seq<real>, p: real -> bool, lo: real, hi: real)
    requires CountIf(s, p) >= 1
    requires forall i :: 0 <= i < |s| && p(s[i]) ==> lo <= s[i] <= hi
    ensures lo <= SumIf(s, p) / CountIf(s, p) as real <= hi
  {
    var count := CountIf(s, p);
    SumIfUpper(s, p, hi);
    SumIfLower(s, p, lo);
    ScaledIsProduct(count, hi);
    ScaledIsProduct(count, lo);
    MeanWithin(SumIf(s, p), count, lo, hi);
  }
}
