/** Per-customer aggregation of a transaction log: the three group-by tables
    (last purchase day, number of distinct orders, total amount), the recency
    column computed from the last purchase day, and the inner join of the
    three tables on the customer id. */
module Aggregate {
  import opened Wrappers
  import opened Sorting

  type CustomerId = int
  type OrderId = int
  /** A calendar day as a day number; the reference "now" is given the same way. */
  type Day = int

  /** One line of the log; the amount is in cents. */
  datatype Transaction = Transaction(customer: CustomerId, day: Day, order: OrderId, amount: int)

  predicate HasCustomer(ts: seq<Transaction>, c: CustomerId) {
    exists i :: 0 <= i < |ts| && ts[i].customer == c
  }

  lemma HasCustomerTail(ts: seq<Transaction>, c: CustomerId)
    requires HasCustomer(ts, c) && ts[0].customer != c
    ensures HasCustomer(ts[1..], c)
  {
    var i :| 0 <= i < |ts| && ts[i].customer == c;
    assert ts[1..][i - 1].customer == c;
  }

  function CustomerColumn(ts: seq<Transaction>): (ids: seq<CustomerId>) {
    seq(|ts|, i requires 0 <= i < |ts| => ts[i].customer)
  }

  /** The group keys: every customer of the log once, in ascending order. */
  function Customers(ts: seq<Transaction>): (cs: seq<CustomerId>)
    ensures StrictlyIncreasing(cs)
    ensures forall c :: c in cs <==> HasCustomer(ts, c)
  {
    var ids := CustomerColumn(ts);
    assert |ids| == |ts| && forall i :: 0 <= i < |ts| ==> ids[i] == ts[i].customer;
    var sorted := SortAsc(ids);
    assert forall c :: c in sorted <==> c in multiset(ids);
    Dedup(sorted)
  }

  /** The latest purchase day of a customer of the log: a day on which the
      customer bought, and no earlier than any other. */
  function LastPurchase(ts: seq<Transaction>, c: CustomerId): (d: Day)
    requires HasCustomer(ts, c)
    ensures exists i :: 0 <= i < |ts| && ts[i].customer == c && ts[i].day == d
    ensures forall i :: 0 <= i < |ts| && ts[i].customer == c ==> ts[i].day <= d
    decreases |ts|
  {
    if ts[0].customer != c then
      HasCustomerTail(ts, c);
      var d := LastPurchase(ts[1..], c);
      assert forall i :: 1 <= i < |ts| ==> ts[i] == ts[1..][i - 1];
      d
    else if !HasCustomer(ts[1..], c) then
      assert forall i :: 1 <= i < |ts| ==> ts[i] == ts[1..][i - 1];
      ts[0].day
    else
      var d := LastPurchase(ts[1..], c);
      assert forall i :: 1 <= i < |ts| ==> ts[i] == ts[1..][i - 1];
      if ts[0].day >= d then ts[0].day else d
  }

  /** Days from a customer's last purchase to now. */
  function Recency(ts: seq<Transaction>, c: CustomerId, now: Day): (days: int)
    requires HasCustomer(ts, c)
  {
    now - LastPurchase(ts, c)
  }

  /** The distinct order ids of a customer. */
  function OrderIds(ts: seq<Transaction>, c: CustomerId): (os: set<OrderId>)
    ensures forall o :: o in os <==> exists i :: 0 <= i < |ts| && ts[i].customer == c && ts[i].order == o
    decreases |ts|
  {
    if ts == [] then {}
    else
      var rest := OrderIds(ts[1..], c);
      assert forall i :: 1 <= i < |ts| ==> ts[i] == ts[1..][i - 1];
      (if ts[0].customer == c then {ts[0].order} else {}) + rest
  }

  /** Number of distinct orders of a customer; lines of one order count once. */
  function Frequency(ts: seq<Transaction>, c: CustomerId): (n: nat) {
    |OrderIds(ts, c)|
  }

  /** Number of lines of a customer in the log. */
  function RowCount(ts: seq<Transaction>, c: CustomerId): (n: nat)
    decreases |ts|
  {
    if ts == [] then 0
    else (if ts[0].customer == c then 1 else 0) + RowCount(ts[1..], c)
  }

  /** Total amount of a customer's lines. */
  function Value(ts: seq<Transaction>, c: CustomerId): (v: int)
    ensures !HasCustomer(ts, c) ==> v == 0
    ensures (forall i :: 0 <= i < |ts| ==> ts[i].amount >= 0) ==> v >= 0
    decreases |ts|
  {
    if ts == [] then 0
    else
      var rest := Value(ts[1..], c);
      assert forall i :: 1 <= i < |ts| ==> ts[i] == ts[1..][i - 1];
      (if ts[0].customer == c then ts[0].amount else 0) + rest
  }

  /** A customer of the log has at least one order and no more orders than lines. */
  lemma {:induction false} FrequencyBounds(ts: seq<Transaction>, c: CustomerId)
    ensures HasCustomer(ts, c) ==> 1 <= Frequency(ts, c)
    ensures Frequency(ts, c) <= RowCount(ts, c)
    decreases |ts|
  {
    if HasCustomer(ts, c) {
      var i :| 0 <= i < |ts| && ts[i].customer == c;
      assert ts[i].order in OrderIds(ts, c);
    }
    if ts != [] {
      FrequencyBounds(ts[1..], c);
      var head: set<OrderId> := if ts[0].customer == c then {ts[0].order} else {};
      assert OrderIds(ts, c) == head + OrderIds(ts[1..], c);
      assert |head + OrderIds(ts[1..], c)| <= |head| + |OrderIds(ts[1..], c)|;
    }
  }

  /** Appending a line adds its order id to its own customer's orders only. */
  lemma OrderIdsAppend(ts: seq<Transaction>, t: Transaction, c: CustomerId)
    ensures OrderIds(ts + [t], c) == OrderIds(ts, c) + (if t.customer == c then {t.order} else {})
  {
    var ts' := ts + [t];
    assert forall i :: 0 <= i < |ts| ==> ts'[i] == ts[i];
    assert ts'[|ts|] == t;
  }

  /** Another line of an order already counted leaves the frequency unchanged;
      a line of a new order raises it by one; other customers are unaffected. */
  lemma FrequencyAppend(ts: seq<Transaction>, t: Transaction, c: CustomerId)
    ensures t.customer != c ==> Frequency(ts + [t], c) == Frequency(ts, c)
    ensures t.customer == c && t.order in OrderIds(ts, c) ==> Frequency(ts + [t], c) == Frequency(ts, c)
    ensures t.customer == c && t.order !in OrderIds(ts, c) ==> Frequency(ts + [t], c) == Frequency(ts, c) + 1
  {
    OrderIdsAppend(ts, t, c);
    var os := OrderIds(ts, c);
    if t.customer == c {
      if t.order in os {
        assert os + {t.order} == os;
      } else {
        assert |os + {t.order}| == |os| + 1;
      }
    } else {
      assert os + {} == os;
    }
  }

  /** Appending a line adds exactly its amount to its own customer's value and
      changes no other customer's. */
  lemma {:induction false} ValueAppend(ts: seq<Transaction>, t: Transaction, c: CustomerId)
    ensures Value(ts + [t], c) == Value(ts, c) + (if t.customer == c then t.amount else 0)
    decreases |ts|
  {
    if ts == [] {
      assert [] + [t] == [t];
      assert [t][1..] == [];
    } else {
      assert (ts + [t])[1..] == ts[1..] + [t];
      ValueAppend(ts[1..], t, c);
    }
  }

  /** A further purchase moves the last purchase day to the later of the two;
      an older purchase leaves it, and the recency, unchanged. */
  lemma LastPurchaseAppend(ts: seq<Transaction>, t: Transaction, c: CustomerId)
    requires HasCustomer(ts, c)
    ensures HasCustomer(ts + [t], c)
    ensures t.customer != c ==> LastPurchase(ts + [t], c) == LastPurchase(ts, c)
    ensures t.customer == c ==>
      LastPurchase(ts + [t], c) == (if t.day <= LastPurchase(ts, c) then LastPurchase(ts, c) else t.day)
  {
    var ts' := ts + [t];
    assert forall i :: 0 <= i < |ts| ==> ts'[i] == ts[i];
    assert ts'[|ts|] == t;
    var i :| 0 <= i < |ts| && ts[i].customer == c;
    assert ts'[i].customer == c;
  }

  /** When no purchase lies after now, every recency is at least zero. */
  lemma RecencyNonNegative(ts: seq<Transaction>, c: CustomerId, now: Day)
    requires HasCustomer(ts, c)
    requires forall i :: 0 <= i < |ts| ==> ts[i].day <= now
    ensures Recency(ts, c, now) >= 0
  {
  }

  /** A row of a group-by result: the customer and one aggregate. */
  datatype Keyed = Keyed(id: CustomerId, val: int)

  /** A row of the recency table: the customer, its last purchase day and its recency. */
  datatype RecencyRow = RecencyRow(id: CustomerId, lastDay: Day, recency: int)

  /** A row of the joined table. */
  datatype CustomerAggregate = CustomerAggregate(id: CustomerId, lastDay: Day, recency: int, frequency: int, value: int)

  /** Group by customer, latest purchase day. */
  function LastPurchaseTable(ts: seq<Transaction>): (tbl: seq<Keyed>) {
    var cs := Customers(ts);
    seq(|cs|, i requires 0 <= i < |cs| => Keyed(cs[i], LastPurchase(ts, cs[i])))
  }

  /** The last purchase table with the recency column added. */
  function RecencyTable(ts: seq<Transaction>, now: Day): (tbl: seq<RecencyRow>) {
    var lp := LastPurchaseTable(ts);
    seq(|lp|, i requires 0 <= i < |lp| => RecencyRow(lp[i].id, lp[i].val, now - lp[i].val))
  }

  /** Group by customer, number of distinct order ids. */
  function FrequencyTable(ts: seq<Transaction>): (tbl: seq<Keyed>) {
    var cs := Customers(ts);
    seq(|cs|, i requires 0 <= i < |cs| => Keyed(cs[i], Frequency(ts, cs[i])))
  }

  /** Group by customer, sum of amounts. */
  function ValueTable(ts: seq<Transaction>): (tbl: seq<Keyed>) {
    var cs := Customers(ts);
    seq(|cs|, i requires 0 <= i < |cs| => Keyed(cs[i], Value(ts, cs[i])))
  }

  /** The aggregate of the first row of a group-by table with the given key. */
  function Lookup(tbl: seq<Keyed>, id: CustomerId): (r: Option<int>)
    ensures r.Some? <==> exists i :: 0 <= i < |tbl| && tbl[i].id == id
    ensures r.Some? ==> exists i :: 0 <= i < |tbl| && tbl[i].id == id && tbl[i].val == r.value
    decreases |tbl|
  {
    if tbl == [] then None
    else if tbl[0].id == id then Some(tbl[0].val)
    else
      var r := Lookup(tbl[1..], id);
      assert forall i :: 1 <= i < |tbl| ==> tbl[i] == tbl[1..][i - 1];
      r
  }

  /** Inner join of the recency table with the frequency and value tables on
      the customer id, in the order of the recency table: a row whose id is
      missing from either right-hand table is dropped. The right-hand tables,
      being group-by results, have one row per id. */
  function Join(left: seq<RecencyRow>, freq: seq<Keyed>, value: seq<Keyed>): (rows: seq<CustomerAggregate>)
    decreases |left|
  {
    if left == [] then []
    else
      var l := left[0];
      var here := match (Lookup(freq, l.id), Lookup(value, l.id))
        case (Some(f), Some(v)) => [CustomerAggregate(l.id, l.lastDay, l.recency, f, v)]
        case _ => [];
      here + Join(left[1..], freq, value)
  }

  /** When every left id is found on both sides, the join keeps every left row,
      in order, extended with the two looked-up aggregates. */
  lemma {:induction false} JoinAllFound(left: seq<RecencyRow>, freq: seq<Keyed>, value: seq<Keyed>)
    requires forall i :: 0 <= i < |left| ==> Lookup(freq, left[i].id).Some? && Lookup(value, left[i].id).Some?
    ensures |Join(left, freq, value)| == |left|
    ensures forall i :: 0 <= i < |left| ==>
      Join(left, freq, value)[i] ==
      CustomerAggregate(left[i].id, left[i].lastDay, left[i].recency,
                        Lookup(freq, left[i].id).value, Lookup(value, left[i].id).value)
    decreases |left|
  {
    if left != [] {
      var l := left[0];
      var f, v := Lookup(freq, l.id), Lookup(value, l.id);
      assert f.Some? && v.Some?;
      var rest := Join(left[1..], freq, value);
      JoinAllFound(left[1..], freq, value);
      var joined := Join(left, freq, value);
      assert joined == [CustomerAggregate(l.id, l.lastDay, l.recency, f.value, v.value)] + rest;
      forall i | 1 <= i < |left|
        ensures joined[i] == CustomerAggregate(left[i].id, left[i].lastDay, left[i].recency,
                                               Lookup(freq, left[i].id).value, Lookup(value, left[i].id).value)
      {
        assert left[i] == left[1..][i - 1];
        assert joined[i] == rest[i - 1];
      }
    }
  }

  /** The joined table of all customers, the programme's aggregate table. */
  function Aggregates(ts: seq<Transaction>, now: Day): (rows: seq<CustomerAggregate>) {
    Join(RecencyTable(ts, now), FrequencyTable(ts), ValueTable(ts))
  }

  /** The aggregate row of one customer, stated directly. */
  function CustomerRow(ts: seq<Transaction>, now: Day, c: CustomerId): (row: CustomerAggregate)
    requires HasCustomer(ts, c)
  {
    CustomerAggregate(c, LastPurchase(ts, c), Recency(ts, c, now), Frequency(ts, c), Value(ts, c))
  }

  /** In a table whose keys are unique, a key is found with its own row's aggregate. */
  lemma LookupUniqueKey(tbl: seq<Keyed>, i: int)
    requires 0 <= i < |tbl|
    requires forall j, k :: 0 <= j < k < |tbl| ==> tbl[j].id != tbl[k].id
    ensures Lookup(tbl, tbl[i].id) == Some(tbl[i].val)
  {
    var j :| 0 <= j < |tbl| && tbl[j].id == tbl[i].id && tbl[j].val == Lookup(tbl, tbl[i].id).value;
    assert j == i;
  }

  /** The join loses no customer and duplicates none: its rows are the
      customers of the log in ascending id order, each with its last purchase
      day, recency, number of distinct orders and total amount. */
  lemma AggregatesPerCustomer(ts: seq<Transaction>, now: Day)
    ensures |Aggregates(ts, now)| == |Customers(ts)|
    ensures forall i :: 0 <= i < |Customers(ts)| ==>
      Aggregates(ts, now)[i] == CustomerRow(ts, now, Customers(ts)[i])
  {
    var cs := Customers(ts);
    var left, freq, value := RecencyTable(ts, now), FrequencyTable(ts), ValueTable(ts);
    assert |left| == |cs| && |freq| == |cs| && |value| == |cs|;
    assert forall j, k :: 0 <= j < k < |cs| ==> cs[j] < cs[k];
    forall i | 0 <= i < |cs|
      ensures Lookup(freq, left[i].id) == Some(Frequency(ts, cs[i]))
      ensures Lookup(value, left[i].id) == Some(Value(ts, cs[i]))
    {
      assert left[i].id == cs[i] && freq[i].id == cs[i] && value[i].id == cs[i];
      LookupUniqueKey(freq, i);
      LookupUniqueKey(value, i);
    }
    JoinAllFound(left, freq, value);
  }

  lemma EmptyLogAggregates(now: Day)
    ensures Aggregates([], now) == []
  {
    assert Customers([]) == [];
  }

  /** A strictly increasing key column holding exactly the keys a < b is [a, b]. */
  lemma TwoKeys(cs: seq<CustomerId>, a: CustomerId, b: CustomerId)
    requires a < b && StrictlyIncreasing(cs)
    requires forall c :: c in cs <==> c == a || c == b
    ensures cs == [a, b]
  {
    assert a in cs && b in cs;
    assert forall k :: 0 <= k < |cs| ==> cs[k] in cs;
    var i :| 0 <= i < |cs| && cs[i] == a;
    var j :| 0 <= j < |cs| && cs[j] == b;
    assert cs[0] <= cs[i];
    assert forall k :: 0 < k < |cs| ==> cs[k] == b;
    assert |cs| >= 2 && cs[1] == b;
    assert |cs| <= 2 by {
      if |cs| > 2 {
        assert false;
      }
    }
    assert cs == [a, b];
  }

  /** Worked example: two orders of customer 1 on days 0 and 9 for 100.00
      and 50.00, one order of customer 2 on day 4 for 200.00, now = day 31. */
  const ThreeLines := [Transaction(1, 0, 1, 10000), Transaction(1, 9, 2, 5000), Transaction(2, 4, 3, 20000)]

  /** The example's group keys are customers 1 and 2, in that order. */
  lemma ThreeLineKeys()
    ensures Customers(ThreeLines) == [1, 2]
  {
    var ts := ThreeLines;
    assert ts[0].customer == 1 && ts[2].customer == 2;
    assert forall c :: HasCustomer(ts, c) <==> c == 1 || c == 2;
    TwoKeys(Customers(ts), 1, 2);
  }

  /** The example's per-customer aggregates. */
  lemma ThreeLineRows()
    ensures HasCustomer(ThreeLines, 1) && HasCustomer(ThreeLines, 2)
    ensures CustomerRow(ThreeLines, 31, 1) == CustomerAggregate(1, 9, 22, 2, 15000)
    ensures CustomerRow(ThreeLines, 31, 2) == CustomerAggregate(2, 4, 27, 1, 20000)
  {
    var ts := ThreeLines;
    assert ts[0].customer == 1 && ts[2].customer == 2;
    assert OrderIds(ts, 1) == {1, 2};
    assert OrderIds(ts, 2) == {3};
    assert ts[1..] == [Transaction(1, 9, 2, 5000), Transaction(2, 4, 3, 20000)];
    assert ts[2..] == [Transaction(2, 4, 3, 20000)];
  }

  /** The example's joined table: customer 1 with recency 22, frequency 2 and
      value 150.00, then customer 2 with recency 27, frequency 1 and value 200.00. */
  lemma ThreeLineExample()
    ensures Aggregates(ThreeLines, 31) ==
      [CustomerAggregate(1, 9, 22, 2, 15000), CustomerAggregate(2, 4, 27, 1, 20000)]
  {
    ThreeLineKeys();
    ThreeLineRows();
    AggregatesPerCustomer(ThreeLines, 31);
  }
}
