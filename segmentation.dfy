/** The RFV segmentation of a transaction log: quartile thresholds over the
    aggregate table, the R, F and V class columns, the segment code column,
    the action column, and the selection of one segment. */
module Segmentation {
  import opened Wrappers
  import opened Sorting
  import opened Quantile
  import opened Classify
  import opened Actions
  import opened Aggregate

  /** The quartile thresholds of the three metrics, one triple per metric. */
  datatype QuartileTable = QuartileTable(recency: Thresholds, frequency: Thresholds, value: Thresholds)

  /** A row of the segmented table: the aggregate row and its added columns. */
  datatype SegmentRow = SegmentRow(customer: CustomerAggregate, r: Grade, f: Grade, v: Grade,
                                   code: string, action: Option<string>)

  /** The metric columns of the aggregate table, row by row. */
  function RecencyColumn(rows: seq<CustomerAggregate>): (col: seq<int>) {
    seq(|rows|, i requires 0 <= i < |rows| => rows[i].recency)
  }

  function FrequencyColumn(rows: seq<CustomerAggregate>): (col: seq<int>) {
    seq(|rows|, i requires 0 <= i < |rows| => rows[i].frequency)
  }

  function ValueColumn(rows: seq<CustomerAggregate>): (col: seq<int>) {
    seq(|rows|, i requires 0 <= i < |rows| => rows[i].value)
  }

  /** The 0.25, 0.5 and 0.75 quantiles of each metric over the aggregate
      table. Each triple is ordered and lies within its column's range, so it
      meets the ordering the classifiers' interval lemmas ask for. */
  function Quartiles(rows: seq<CustomerAggregate>): (q: QuartileTable)
    requires |rows| > 0
    ensures Ordered(q.recency) && Ordered(q.frequency) && Ordered(q.value)
    ensures SeqMin(RecencyColumn(rows)) as real <= q.recency.q25
    ensures SeqMin(FrequencyColumn(rows)) as real <= q.frequency.q25
    ensures SeqMin(ValueColumn(rows)) as real <= q.value.q25
    ensures q.recency.q75 <= SeqMax(RecencyColumn(rows)) as real
    ensures q.frequency.q75 <= SeqMax(FrequencyColumn(rows)) as real
    ensures q.value.q75 <= SeqMax(ValueColumn(rows)) as real
  {
    QuartileTable(ColumnThresholds(RecencyColumn(rows)),
                  ColumnThresholds(FrequencyColumn(rows)),
                  ColumnThresholds(ValueColumn(rows)))
  }

  /** The class, code and action columns of one aggregate row. */
  function ClassifyRow(row: CustomerAggregate, q: QuartileTable): (seg: SegmentRow) {
    var r := RecencyClass(row.recency as real, q.recency);
    var f := FreqValClass(row.frequency as real, q.frequency);
    var v := FreqValClass(row.value as real, q.value);
    var code := Code(r, f, v);
    SegmentRow(row, r, f, v, code, ActionFor(code))
  }

  /** The segmented table of a log, with thresholds taken from the log's own
      aggregate table; an empty log gives an empty table. */
  function Segment(ts: seq<Transaction>, now: Day): (table: seq<SegmentRow>)
    ensures |table| == |Aggregates(ts, now)|
  {
    var rows := Aggregates(ts, now);
    if rows == [] then []
    else
      var q := Quartiles(rows);
      seq(|rows|, i requires 0 <= i < |rows| => ClassifyRow(rows[i], q))
  }

  /** Fills the R, F, V, code and action columns row by row. */
  method AssignSegmentColumns(rows: seq<CustomerAggregate>, q: QuartileTable) returns (out: seq<SegmentRow>)
    ensures |out| == |rows|
    ensures forall i :: 0 <= i < |rows| ==> out[i] == ClassifyRow(rows[i], q)
  {
    out := [];
    var i := 0;
    while i < |rows|
      invariant 0 <= i <= |rows|
      invariant |out| == i
      invariant forall k :: 0 <= k < i ==> out[k] == ClassifyRow(rows[k], q)
    {
      var row := rows[i];
      var r := RecencyClass(row.recency as real, q.recency);
      var f := FreqValClass(row.frequency as real, q.frequency);
      var v := FreqValClass(row.value as real, q.value);
      var code := Code(r, f, v);
      out := out + [SegmentRow(row, r, f, v, code, ActionFor(code))];
      i := i + 1;
    }
  }

  /** The whole pipeline: aggregation, quartiles and the added columns. */
  method RunSegmentation(ts: seq<Transaction>, now: Day) returns (table: seq<SegmentRow>)
    ensures table == Segment(ts, now)
  {
    var rows := Aggregates(ts, now);
    if rows == [] {
      table := [];
    } else {
      var q := Quartiles(rows);
      table := AssignSegmentColumns(rows, q);
    }
  }

  /** The added columns of a row: the row itself, a three-letter code that
      decodes back to the row's R, F and V classes in that order, and an
      action exactly when that triple is one of the curated segments. */
  lemma ClassifyRowColumns(row: CustomerAggregate, q: QuartileTable)
    ensures ClassifyRow(row, q).customer == row
    ensures |ClassifyRow(row, q).code| == 3
    ensures Decode(ClassifyRow(row, q).code) == Some((ClassifyRow(row, q).r, ClassifyRow(row, q).f, ClassifyRow(row, q).v))
    ensures ClassifyRow(row, q).action.Some? <==>
      (ClassifyRow(row, q).r, ClassifyRow(row, q).f, ClassifyRow(row, q).v) in CuratedTriples
  {
    var s := ClassifyRow(row, q);
    DecodeCode(s.r, s.f, s.v);
    ActionForTriple(s.r, s.f, s.v);
  }

  /** Row i of a non-empty segmented table is row i of the aggregate table,
      classified against the aggregate table's own quartiles. */
  lemma SegmentAt(ts: seq<Transaction>, now: Day, i: int)
    requires 0 <= i < |Segment(ts, now)|
    ensures |Aggregates(ts, now)| == |Segment(ts, now)|
    ensures Segment(ts, now)[i] == ClassifyRow(Aggregates(ts, now)[i], Quartiles(Aggregates(ts, now)))
  {
  }

  /** The segmented table has one row per customer of the log, in ascending
      id order, carrying that customer's aggregates; its code column spells
      the row's three classes and its action column looks that code up. */
  lemma SegmentRows(ts: seq<Transaction>, now: Day)
    ensures |Segment(ts, now)| == |Customers(ts)|
    ensures forall i :: 0 <= i < |Segment(ts, now)| ==>
      var row := Segment(ts, now)[i];
      && row.customer == CustomerRow(ts, now, Customers(ts)[i])
      && |row.code| == 3
      && row.code == [row.r.Letter(), row.f.Letter(), row.v.Letter()]
      && row.action == ActionFor(row.code)
  {
    AggregatesPerCustomer(ts, now);
    var seg := Segment(ts, now);
    forall i | 0 <= i < |seg|
      ensures seg[i].customer == CustomerRow(ts, now, Customers(ts)[i])
      ensures |seg[i].code| == 3 && seg[i].code == [seg[i].r.Letter(), seg[i].f.Letter(), seg[i].v.Letter()]
      ensures seg[i].action == ActionFor(seg[i].code)
    {
      SegmentAt(ts, now, i);
      var rows := Aggregates(ts, now);
      ClassifyRowColumns(rows[i], Quartiles(rows));
    }
  }

  /** Within one table, a customer who bought more recently never has a worse
      R class, and one with more orders or more money never has a worse F or
      V class. */
  lemma SegmentMonotone(ts: seq<Transaction>, now: Day, i: int, j: int)
    requires 0 <= i < |Segment(ts, now)| && 0 <= j < |Segment(ts, now)|
    ensures Segment(ts, now)[i].customer.recency <= Segment(ts, now)[j].customer.recency ==>
      Segment(ts, now)[i].r.Rank() <= Segment(ts, now)[j].r.Rank()
    ensures Segment(ts, now)[i].customer.frequency <= Segment(ts, now)[j].customer.frequency ==>
      Segment(ts, now)[j].f.Rank() <= Segment(ts, now)[i].f.Rank()
    ensures Segment(ts, now)[i].customer.value <= Segment(ts, now)[j].customer.value ==>
      Segment(ts, now)[j].v.Rank() <= Segment(ts, now)[i].v.Rank()
  {
    SegmentAt(ts, now, i);
    SegmentAt(ts, now, j);
    var rows := Aggregates(ts, now);
    var q := Quartiles(rows);
    var a, b := rows[i], rows[j];
    if a.recency <= b.recency {
      RecencyClassMonotone(a.recency as real, b.recency as real, q.recency);
    }
    if a.frequency <= b.frequency {
      FreqValClassMonotone(a.frequency as real, b.frequency as real, q.frequency);
    }
    if a.value <= b.value {
      FreqValClassMonotone(a.value as real, b.value as real, q.value);
    }
  }

  /** In any non-empty aggregate table the row with the smallest recency is
      in R class A, and the rows with the fewest orders or the least money are
      in F or V class D: the first quartile never lies below the minimum. */
  lemma SmallestMetricsClass(rows: seq<CustomerAggregate>, i: int)
    requires 0 <= i < |rows|
    ensures (forall j :: 0 <= j < |rows| ==> rows[i].recency <= rows[j].recency) ==>
      ClassifyRow(rows[i], Quartiles(rows)).r == A
    ensures (forall j :: 0 <= j < |rows| ==> rows[i].frequency <= rows[j].frequency) ==>
      ClassifyRow(rows[i], Quartiles(rows)).f == D
    ensures (forall j :: 0 <= j < |rows| ==> rows[i].value <= rows[j].value) ==>
      ClassifyRow(rows[i], Quartiles(rows)).v == D
  {
    var rc, fc, vc := RecencyColumn(rows), FrequencyColumn(rows), ValueColumn(rows);
    if forall j :: 0 <= j < |rows| ==> rows[i].recency <= rows[j].recency {
      assert forall j :: 0 <= j < |rc| ==> rc[i] <= rc[j];
      MinimumWithinFirstQuartile(rc, i);
    }
    if forall j :: 0 <= j < |rows| ==> rows[i].frequency <= rows[j].frequency {
      assert forall j :: 0 <= j < |fc| ==> fc[i] <= fc[j];
      MinimumWithinFirstQuartile(fc, i);
    }
    if forall j :: 0 <= j < |rows| ==> rows[i].value <= rows[j].value {
      assert forall j :: 0 <= j < |vc| ==> vc[i] <= vc[j];
      MinimumWithinFirstQuartile(vc, i);
    }
  }

  /** When no purchase of the log lies after now, no recency in the table is negative. */
  lemma SegmentRecencyNonNegative(ts: seq<Transaction>, now: Day)
    requires forall i :: 0 <= i < |ts| ==> ts[i].day <= now
    ensures forall i :: 0 <= i < |Segment(ts, now)| ==> Segment(ts, now)[i].customer.recency >= 0
  {
    SegmentRows(ts, now);
    forall i | 0 <= i < |Segment(ts, now)|
      ensures Segment(ts, now)[i].customer.recency >= 0
    {
      RecencyNonNegative(ts, Customers(ts)[i], now);
    }
  }

  lemma EmptyLogSegment(now: Day)
    ensures Segment([], now) == []
  {
    EmptyLogAggregates(now);
  }

  /** a occurs in b in the same order, possibly with other rows in between. */
  predicate IsSubsequence<T(==)>(a: seq<T>, b: seq<T>)
    decreases |b|
  {
    if a == [] then true
    else if b == [] then false
    else (a[0] == b[0] && IsSubsequence(a[1..], b[1..])) || IsSubsequence(a, b[1..])
  }

  /** The rows of one segment, in table order. */
  function SelectSegment(rows: seq<SegmentRow>, code: string): (sel: seq<SegmentRow>)
    ensures forall row :: row in sel <==> row in rows && row.code == code
    ensures IsSubsequence(sel, rows)
    decreases |rows|
  {
    if rows == [] then []
    else
      var rest := SelectSegment(rows[1..], code);
      assert forall row :: row in rows <==> row == rows[0] || row in rows[1..];
      if rows[0].code == code then
        assert ([rows[0]] + rest)[1..] == rest;
        [rows[0]] + rest
      else
        rest
  }

  /** Selection distributes over concatenation: the rows of a segment keep
      the order of the table, and no row is dropped or repeated. */
  lemma {:induction false} SelectSegmentAppend(a: seq<SegmentRow>, b: seq<SegmentRow>, code: string)
    ensures SelectSegment(a + b, code) == SelectSegment(a, code) + SelectSegment(b, code)
    decreases |a|
  {
    if a == [] {
      assert a + b == b;
    } else {
      assert (a + b)[1..] == a[1..] + b;
      assert (a + b)[0] == a[0];
      SelectSegmentAppend(a[1..], b, code);
    }
  }

  /** Every row of a selected segment carries the segment's action, which is
      the one shown for that segment. */
  lemma SelectedSegmentAction(ts: seq<Transaction>, now: Day, code: string)
    ensures forall row :: row in SelectSegment(Segment(ts, now), code) ==>
      row.code == code && row.action == ActionFor(code)
    ensures code in CuratedCodes ==> forall row :: row in SelectSegment(Segment(ts, now), code) ==>
      row.action == Some(RecommendedAction(code))
  {
    SegmentRows(ts, now);
  }
}
