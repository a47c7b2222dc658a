/** Quartile thresholds of a metric column, computed the way pandas' default
    `quantile` does: linear interpolation between the two nearest ranks of the
    sorted column, in exact real arithmetic. */
module Quantile {
  import opened Sorting

  /** The three cut points of one metric: its 0.25, 0.5 and 0.75 quantiles. */
  datatype Thresholds = Thresholds(q25: real, q50: real, q75: real)

  predicate Ordered(t: Thresholds) {
    t.q25 <= t.q50 <= t.q75
  }

  /** Where the p-quantile falls among the ranks 0 .. n - 1 of a sorted
      column of n values. */
  function Position(n: nat, p: real): (h: real)
    requires n > 0 && 0.0 <= p <= 1.0
    ensures 0.0 <= h <= (n - 1) as real
  {
    Scale((n - 1) as real, p)
  }

  /** m scaled by a factor in [0, 1]. */
  function Scale(m: real, p: real): (r: real)
    requires 0.0 <= m && 0.0 <= p <= 1.0
    ensures 0.0 <= r <= m
  {
    m * p
  }

  lemma ScaleMonotone(m: real, p1: real, p2: real)
    requires 0.0 <= m && 0.0 <= p1 <= p2 <= 1.0
    ensures Scale(m, p1) <= Scale(m, p2)
  {
    var d := p2 - p1;
    assert 0.0 <= m * d;
    assert m * p2 == m * p1 + m * d;
  }

  /** The rank at or just below the p-quantile's position. */
  function LowerRank(n: nat, p: real): (k: int)
    requires n > 0 && 0.0 <= p <= 1.0
    ensures 0 <= k < n
    ensures k as real <= Position(n, p) < k as real + 1.0
  {
    Position(n, p).Floor
  }

  lemma LowerRankMonotone(n: nat, p1: real, p2: real)
    requires n > 0 && 0.0 <= p1 <= p2 <= 1.0
    ensures LowerRank(n, p1) <= LowerRank(n, p2)
    ensures LowerRank(n, p1) == LowerRank(n, p2) ==>
      Position(n, p1) - LowerRank(n, p1) as real <= Position(n, p2) - LowerRank(n, p2) as real
  {
    ScaleMonotone((n - 1) as real, p1, p2);
  }

  /** The point a fraction t of the way from a to b. */
  function Lerp(a: real, b: real, t: real): (r: real)
    requires a <= b && 0.0 <= t <= 1.0
    ensures a <= r <= b
  {
    a + Scale(b - a, t)
  }

  lemma LerpMonotone(a: real, b: real, t1: real, t2: real)
    requires a <= b && 0.0 <= t1 <= t2 <= 1.0
    ensures Lerp(a, b, t1) <= Lerp(a, b, t2)
  {
    ScaleMonotone(b - a, t1, t2);
  }

  /** The p-quantile of a sorted, non-empty column by linear interpolation:
      with h = (n - 1) * p, it lies between the values at ranks floor(h) and
      floor(h) + 1, in proportion to the fractional part of h. */
  function QuantileSorted(s: seq<int>, p: real): (q: real)
    requires |s| > 0 && Sorted(s) && 0.0 <= p <= 1.0
    ensures s[LowerRank(|s|, p)] as real <= q
    ensures q <= s[if LowerRank(|s|, p) + 1 < |s| then LowerRank(|s|, p) + 1 else LowerRank(|s|, p)] as real
  {
    var lo := LowerRank(|s|, p);
    if lo + 1 < |s| then Lerp(s[lo] as real, s[lo + 1] as real, Position(|s|, p) - lo as real)
    else s[lo] as real
  }

  /** The p-quantile of an unsorted, non-empty column. */
  function QuantileOf(col: seq<int>, p: real): (q: real)
    requires |col| > 0 && 0.0 <= p <= 1.0
  {
    QuantileSorted(SortAsc(col), p)
  }

  /** A quantile never leaves the range of the column. */
  lemma QuantileWithinRange(col: seq<int>, p: real)
    requires |col| > 0 && 0.0 <= p <= 1.0
    ensures SeqMin(col) as real <= QuantileOf(col, p) <= SeqMax(col) as real
  {
    SortedQuantileWithinEnds(SortAsc(col), p);
    SortAscEnds(col);
  }

  lemma SortedQuantileWithinEnds(s: seq<int>, p: real)
    requires |s| > 0 && Sorted(s) && 0.0 <= p <= 1.0
    ensures s[0] as real <= QuantileSorted(s, p) <= s[|s| - 1] as real
  {
    var lo := LowerRank(|s|, p);
    var hi := if lo + 1 < |s| then lo + 1 else lo;
    assert s[0] <= s[lo] && s[hi] <= s[|s| - 1];
  }

  /** A larger probability never yields a smaller quantile. */
  lemma QuantileMonotone(s: seq<int>, p1: real, p2: real)
    requires |s| > 0 && Sorted(s) && 0.0 <= p1 <= p2 <= 1.0
    ensures QuantileSorted(s, p1) <= QuantileSorted(s, p2)
  {
    var lo1, lo2 := LowerRank(|s|, p1), LowerRank(|s|, p2);
    LowerRankMonotone(|s|, p1, p2);
    if lo1 == lo2 {
      if lo1 + 1 < |s| {
        LerpMonotone(s[lo1] as real, s[lo1 + 1] as real,
                     Position(|s|, p1) - lo1 as real, Position(|s|, p2) - lo1 as real);
      }
    } else {
      assert s[lo1 + 1] <= s[lo2];
    }
  }

  /** The three quartile thresholds of a non-empty metric column. */
  function ColumnThresholds(col: seq<int>): (t: Thresholds)
    requires |col| > 0
    ensures Ordered(t)
    ensures SeqMin(col) as real <= t.q25 && t.q75 <= SeqMax(col) as real
  {
    var s := SortAsc(col);
    QuantileMonotone(s, 0.25, 0.5);
    QuantileMonotone(s, 0.5, 0.75);
    QuantileWithinRange(col, 0.25);
    QuantileWithinRange(col, 0.75);
    Thresholds(QuantileSorted(s, 0.25), QuantileSorted(s, 0.5), QuantileSorted(s, 0.75))
  }

  /** A smallest element of a column lies at or below its first quartile. */
  lemma MinimumWithinFirstQuartile(col: seq<int>, i: int)
    requires 0 <= i < |col|
    requires forall j :: 0 <= j < |col| ==> col[i] <= col[j]
    ensures col[i] as real <= ColumnThresholds(col).q25
  {
    assert SeqMin(col) in col;
    var k :| 0 <= k < |col| && col[k] == SeqMin(col);
  }

  /** A constant column, in particular a one-row column, yields that constant
      for every threshold. */
  lemma ConstantColumnThresholds(col: seq<int>, v: int)
    requires |col| > 0 && forall i :: 0 <= i < |col| ==> col[i] == v
    ensures ColumnThresholds(col) == Thresholds(v as real, v as real, v as real)
  {
    var t := ColumnThresholds(col);
    assert SeqMin(col) == v && SeqMax(col) == v;
  }

  /** Worked example: for the sorted column [1, 2, 3, 4] the quartiles are
      1.75, 2.5 and 3.25, as interpolation between neighbouring ranks gives. */
  lemma FourValueQuartiles()
    ensures QuantileSorted([1, 2, 3, 4], 0.25) == 1.75
    ensures QuantileSorted([1, 2, 3, 4], 0.5) == 2.5
    ensures QuantileSorted([1, 2, 3, 4], 0.75) == 3.25
  {
    assert Position(4, 0.25) == 0.75 && Position(4, 0.5) == 1.5 && Position(4, 0.75) == 2.25;
    assert LowerRank(4, 0.25) == 0 && LowerRank(4, 0.5) == 1 && LowerRank(4, 0.75) == 2;
  }
}
