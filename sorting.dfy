/** Ordering helpers over integer columns: an ascending sort (the order in which
    a quantile reads a column, and the key order of a grouping), removal of
    adjacent duplicates, and the minimum and maximum of a column. */
module Sorting {

  predicate Sorted(s: seq<int>) {
    forall i, j :: 0 <= i < j < |s| ==> s[i] <= s[j]
  }

  predicate StrictlyIncreasing(s: seq<int>) {
    forall i, j :: 0 <= i < j < |s| ==> s[i] < s[j]
  }

  lemma ConsSorted(h: int, t: seq<int>)
    requires Sorted(t)
    requires forall i :: 0 <= i < |t| ==> h <= t[i]
    ensures Sorted([h] + t)
  {
  }

  lemma ConsStrict(h: int, t: seq<int>)
    requires StrictlyIncreasing(t)
    requires forall i :: 0 <= i < |t| ==> h < t[i]
    ensures StrictlyIncreasing([h] + t)
  {
  }

  /** Inserts x into a sorted sequence, keeping it sorted. */
  function Insert(x: int, s: seq<int>): (r: seq<int>)
    requires Sorted(s)
    ensures Sorted(r)
    ensures multiset(r) == multiset(s) + multiset{x}
    ensures |r| == |s| + 1
    decreases |s|
  {
    if s == [] then [x]
    else if x <= s[0] then [x] + s
    else
      var rest := Insert(x, s[1..]);
      assert s == [s[0]] + s[1..];
      forall i | 0 <= i < |rest| ensures s[0] <= rest[i] {
        assert rest[i] in multiset(rest);
        assert rest[i] == x || rest[i] in multiset(s[1..]);
      }
      ConsSorted(s[0], rest);
      [s[0]] + rest
  }

  /** Insertion sort: an ascending permutation of s. */
  function SortAsc(s: seq<int>): (r: seq<int>)
    ensures Sorted(r)
    ensures multiset(r) == multiset(s)
    ensures |r| == |s|
    decreases |s|
  {
    if s == [] then []
    else
      assert s == [s[0]] + s[1..];
      Insert(s[0], SortAsc(s[1..]))
  }

  /** Drops adjacent repetitions from a sorted sequence. */
  function Dedup(s: seq<int>): (r: seq<int>)
    requires Sorted(s)
    ensures StrictlyIncreasing(r)
    ensures forall x :: x in r <==> x in s
    decreases |s|
  {
    if s == [] then []
    else if |s| > 1 && s[1] == s[0] then Dedup(s[1..])
    else
      var rest := Dedup(s[1..]);
      forall i | 0 <= i < |rest| ensures s[0] < rest[i] {
        assert rest[i] in s[1..];
      }
      ConsStrict(s[0], rest);
      [s[0]] + rest
  }

  function SeqMin(s: seq<int>): (m: int)
    requires |s| > 0
    ensures m in s
    ensures forall i :: 0 <= i < |s| ==> m <= s[i]
  {
    if |s| == 1 then s[0]
    else
      var m := SeqMin(s[1..]);
      assert forall i :: 1 <= i < |s| ==> s[i] == s[1..][i - 1];
      if s[0] <= m then s[0] else m
  }

  function SeqMax(s: seq<int>): (m: int)
    requires |s| > 0
    ensures m in s
    ensures forall i :: 0 <= i < |s| ==> s[i] <= m
  {
    if |s| == 1 then s[0]
    else
      var m := SeqMax(s[1..]);
      assert forall i :: 1 <= i < |s| ==> s[i] == s[1..][i - 1];
      if s[0] >= m then s[0] else m
  }

  /** A sorted permutation of a column starts with the column's minimum and
      ends with its maximum. */
  lemma SortedPermutationEnds(r: seq<int>, s: seq<int>)
    requires |s| > 0 && Sorted(r) && multiset(r) == multiset(s)
    ensures |r| == |s|
    ensures r[0] == SeqMin(s) && r[|r| - 1] == SeqMax(s)
  {
    assert |r| == |multiset(r)| == |multiset(s)| == |s|;
    var lo, hi := SeqMin(s), SeqMax(s);
    assert lo in multiset(r) && hi in multiset(r);
    var k :| 0 <= k < |r| && r[k] == lo;
    var l :| 0 <= l < |r| && r[l] == hi;
    assert r[0] <= r[k] && r[l] <= r[|r| - 1];
    assert r[0] in multiset(s) && r[|r| - 1] in multiset(s);
    var j :| 0 <= j < |s| && s[j] == r[0];
    var j' :| 0 <= j' < |s| && s[j'] == r[|r| - 1];
  }

  /** The sorted column starts with the column's minimum and ends with its maximum. */
  lemma SortAscEnds(s: seq<int>)
    requires |s| > 0
    ensures SortAsc(s)[0] == SeqMin(s)
    ensures SortAsc(s)[|s| - 1] == SeqMax(s)
  {
    SortedPermutationEnds(SortAsc(s), s);
  }
}
