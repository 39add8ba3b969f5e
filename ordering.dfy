/** Ascending order on return series: the sort that historical simulation
    starts from, and the extremes of a series.

    `Sort` is a reference definition of the library sort the estimator calls
    (`np.sort`): any sorted permutation of the input. `SortedUnique` shows
    that there is only one such permutation, so every correct sort agrees
    with `Sort`. */
module Ordering {

  /** Ascending (non-decreasing) order. */
  predicate Sorted(s: seq<real>) {
    forall i, j :: 0 <= i <= j < |s| ==> s[i] <= s[j]
  }

  /** Inserts `x` into the sorted series `s`, keeping it sorted. */
  function Insert(x: real, s: seq<real>): (r: seq<real>)
    requires Sorted(s)
    ensures Sorted(r)
    ensures multiset(r) == multiset(s) + multiset{x}
    ensures |r| == |s| + 1
    ensures r[0] == x || (s != [] && r[0] == s[0])
  {
    if s == [] then [x]
    else if x <= s[0] then [x] + s
    else
      assert s == [s[0]] + s[1..];
      [s[0]] + Insert(x, s[1..])
  }

  /** The series in ascending order. */
  function Sort(s: seq<real>): (r: seq<real>)
    ensures Sorted(r)
    ensures multiset(r) == multiset(s)
    ensures |r| == |s|
  {
    if s == [] then []
    else
      assert s == [s[0]] + s[1..];
      Insert(s[0], Sort(s[1..]))
  }

  /** Dropping the head removes one copy of it from the multiset. */
  lemma DropHead(a: seq<real>)
    requires a != []
    ensures multiset(a[1..]) == multiset(a) - multiset{a[0]}
  {
    assert a == [a[0]] + a[1..];
  }

  /** The head of a sorted series is no larger than any element. */
  lemma SortedHeadBelow(a: seq<real>, y: real)
    requires Sorted(a) && y in multiset(a)
    ensures a[0] <= y
  {
    var j :| 0 <= j < |a| && a[j] == y;
  }

  /** The tail of a sorted series is sorted. */
  lemma SortedTail(a: seq<real>)
    requires Sorted(a) && a != []
    ensures Sorted(a[1..])
  {
  }

  /** Sequences that agree on head and tail are equal. */
  lemma SameHeadSameTail(a: seq<real>, b: seq<real>)
    requires a != [] && b != []
    requires a[0] == b[0] && a[1..] == b[1..]
    ensures a == b
  {
    assert a == [a[0]] + a[1..] && b == [b[0]] + b[1..];
  }

  /** Two sorted series with the same elements are equal: the sorted
      permutation of a series is unique. */
  lemma {:induction false} SortedUnique(a: seq<real>, b: seq<real>)
    requires Sorted(a) && Sorted(b)
    requires multiset(a) == multiset(b)
    ensures a == b
    decreases |a|
  {
    assert |a| == |multiset(a)| == |multiset(b)| == |b|;
    if a != [] {
      assert a[0] in multiset(b) && b[0] in multiset(a);
      SortedHeadBelow(b, a[0]);
      SortedHeadBelow(a, b[0]);
      DropHead(a);
      DropHead(b);
      SortedTail(a);
      SortedTail(b);
      SortedUnique(a[1..], b[1..]);
      SameHeadSameTail(a, b);
    }
  }

  /** Sorting depends only on the multiset of the input. */
  lemma SortPermutationInvariant(s: seq<real>, t: seq<real>)
    requires multiset(s) == multiset(t)
    ensures Sort(s) == Sort(t)
  {
    SortedUnique(Sort(s), Sort(t));
  }

  /** Smallest element of a non-empty series. */
  function Min(s: seq<real>): (m: real)
    requires |s| >= 1
    ensures m in s
    ensures forall i :: 0 <= i < |s| ==> m <= s[i]
  {
    if |s| == 1 then s[0]
    else
      var rest := Min(s[1..]);
      if s[0] <= rest then s[0] else rest
  }

  /** Largest element of a non-empty series. */
  function Max(s: seq<real>): (m: real)
    requires |s| >= 1
    ensures m in s
    ensures forall i :: 0 <= i < |s| ==> s[i] <= m
  {
    if |s| == 1 then s[0]
    else
      var rest := Max(s[1..]);
      if s[0] >= rest then s[0] else rest
  }

  /** The first element of the sorted series is the minimum of the input,
      the last one its maximum. */
  lemma {:induction false} SortExtremes(s: seq<real>)
    requires |s| >= 1
    ensures Sort(s)[0] == Min(s)
    ensures Sort(s)[|s| - 1] == Max(s)
  {
    var r := Sort(s);
    var lo, hi := Min(s), Max(s);
    assert lo in multiset(r) && hi in multiset(r);
    var i :| 0 <= i < |r| && r[i] == lo;
    var j :| 0 <= j < |r| && r[j] == hi;
    assert r[0] in multiset(s) && r[|r| - 1] in multiset(s);
    assert r[0] <= lo && hi <= r[|r| - 1];
  }
}
