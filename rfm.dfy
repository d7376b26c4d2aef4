/**
 * The RFM table of the "Customer Segmentation" tab: the snapshot instant
 * (latest purchase in the window plus one day) and one record per customer
 * with Recency (whole days from the customer's last purchase to the
 * snapshot), Frequency (distinct orders) and Monetary (payment sum).
 */
module Rfm {

  import opened Orders
  import opened Grouping

  /** The `customer_unique_id` column, the key the table is grouped by. */
  function CustomerOf(r: Row): int
  {
    r.customerId
  }

  /** `order_purchase_timestamp.max()` over non-empty rows. */
  function LastPurchase(rows: seq<Row>): (t: int)
    requires rows != []
    ensures exists r :: r in rows && r.timestamp == t
    ensures forall r :: r in rows ==> r.timestamp <= t
  {
    if |rows| == 1 then rows[0].timestamp
    else
      var rest := LastPurchase(rows[1..]);
      assert rows == [rows[0]] + rows[1..];
      if rows[0].timestamp >= rest then rows[0].timestamp else rest
  }

  /** `snapshot_date`: the latest purchase in the window plus `pd.Timedelta(days=1)`. */
  function Snapshot(w: seq<Row>): int
    requires w != []
  {
    LastPurchase(w) + DAY
  }

  datatype Customer = Customer(id: int, recency: int, frequency: nat, monetary: int)

  /** `Timedelta.days`: the whole days of a duration, rounded down. */
  function Days(d: int): (n: int)
    ensures n * DAY <= d < (n + 1) * DAY
  {
    d / DAY
  }

  /** The aggregated record of customer `c`, whose last purchase is measured against `snapshot`. */
  function CustomerRecord(w: seq<Row>, snapshot: int, c: int): (r: Customer)
    requires c in KeySet(w, CustomerOf)
    ensures r.id == c
  {
    var g := Group(w, CustomerOf, c);
    assert g != [] by {
      var x :| x in w && CustomerOf(x) == c;
      assert x in g;
    }
    Customer(c, Days(snapshot - LastPurchase(g)), |OrderIds(g)|, Revenue(g))
  }

  /** Unfolds a customer's record into the aggregates of that customer's group. */
  lemma RecordFields(w: seq<Row>, snapshot: int, c: int)
    requires c in KeySet(w, CustomerOf)
    ensures var g := Group(w, CustomerOf, c);
      CustomerRecord(w, snapshot, c) == Customer(c, Days(snapshot - LastPurchase(g)), |OrderIds(g)|, Revenue(g))
  {
  }

  /** Frequency is the number of distinct order ids among the customer's rows, at least one. */
  lemma RecordFrequency(w: seq<Row>, snapshot: int, c: int)
    requires c in KeySet(w, CustomerOf)
    ensures CustomerRecord(w, snapshot, c).frequency == |set x | x in w && x.customerId == c :: x.orderId|
    ensures CustomerRecord(w, snapshot, c).frequency >= 1
  {
    var g := Group(w, CustomerOf, c);
    var x :| x in w && CustomerOf(x) == c;
    assert x in g;
    assert x.orderId in OrderIds(g);
    assert OrderIds(g) == set x | x in w && x.customerId == c :: x.orderId;
  }

  /** The payments of customer `c`, added up row by row over the whole window. */
  function CustomerPayments(w: seq<Row>, c: int): int
  {
    if w == [] then 0 else (if w[0].customerId == c then w[0].payment else 0) + CustomerPayments(w[1..], c)
  }

  lemma {:induction false} GroupPayments(w: seq<Row>, c: int)
    ensures Revenue(Group(w, CustomerOf, c)) == CustomerPayments(w, c)
  {
    if w != [] {
      GroupPayments(w[1..], c);
      var head := if CustomerOf(w[0]) == c then [w[0]] else [];
      RevenueConcat(head, Group(w[1..], CustomerOf, c));
      if head != [] {
        assert head[1..] == [];
      }
    }
  }

  /** Monetary is the sum of every payment row of the customer, installments included. */
  lemma RecordMonetary(w: seq<Row>, snapshot: int, c: int)
    requires c in KeySet(w, CustomerOf)
    ensures CustomerRecord(w, snapshot, c).monetary == CustomerPayments(w, c)
  {
    GroupPayments(w, c);
  }

  /** The records of the customers `ks`, in the order of `ks`. */
  function Records(w: seq<Row>, snapshot: int, ks: seq<int>): (t: seq<Customer>)
    requires forall k :: k in ks ==> k in KeySet(w, CustomerOf)
    ensures |t| == |ks|
    ensures forall i :: 0 <= i < |ks| ==> t[i].id == ks[i]
  {
    if ks == [] then []
    else [CustomerRecord(w, snapshot, ks[0])] + Records(w, snapshot, ks[1..])
  }

  /** `groupby('customer_unique_id').agg(...).reset_index()` over the window's rows. */
  function Table(w: seq<Row>): seq<Customer>
    requires w != []
  {
    Records(w, Snapshot(w), SortedKeys(w, CustomerOf))
  }

  function SumMonetary(t: seq<Customer>): int
  {
    if t == [] then 0 else t[0].monetary + SumMonetary(t[1..])
  }

  /** The snapshot lies one day after the latest purchase of the window. */
  lemma SnapshotIsMaxPlusDay(w: seq<Row>)
    requires w != []
    ensures exists r :: r in w && Snapshot(w) == r.timestamp + DAY
    ensures forall r :: r in w ==> r.timestamp + DAY <= Snapshot(w)
  {
    var last := LastPurchase(w);
    var r :| r in w && r.timestamp == last;
    assert Snapshot(w) == r.timestamp + DAY;
  }

  /**
   * The table has exactly one record per customer of the window: the ids are
   * strictly ascending, they are the window's customers, and there are as
   * many records as distinct customers (`nunique`).
   */
  lemma TableCustomers(w: seq<Row>)
    requires w != []
    ensures var t := Table(w); forall i, j :: 0 <= i < j < |t| ==> t[i].id < t[j].id
    ensures (set c | c in Table(w) :: c.id) == set r | r in w :: r.customerId
    ensures |Table(w)| == |set r | r in w :: r.customerId|
  {
    var ks := SortedKeys(w, CustomerOf);
    var t := Table(w);
    assert KeySet(w, CustomerOf) == set r | r in w :: r.customerId;
    forall c | c in t
      ensures c.id in ks
    {
      var i :| 0 <= i < |t| && t[i] == c;
    }
    forall k | k in ks
      ensures k in (set c | c in t :: c.id)
    {
      var i :| 0 <= i < |ks| && ks[i] == k;
      assert t[i] in t;
    }
  }

  /** The record of the `i`-th customer of `ks` is that customer's record. */
  lemma RecordAt(w: seq<Row>, snapshot: int, ks: seq<int>, i: int)
    requires forall k :: k in ks ==> k in KeySet(w, CustomerOf)
    requires 0 <= i < |ks|
    ensures Records(w, snapshot, ks)[i] == CustomerRecord(w, snapshot, ks[i])
    decreases i
  {
    if i > 0 {
      RecordAt(w, snapshot, ks[1..], i - 1);
    }
  }

  /**
   * A customer's Recency counts the whole days from their last purchase (the
   * latest of their timestamps) to the snapshot; when the snapshot is at
   * least a day after every purchase, that is at least 1.
   */
  lemma RecordRecency(w: seq<Row>, snapshot: int, c: int)
    requires c in KeySet(w, CustomerOf)
    ensures var last := LastPurchase(Group(w, CustomerOf, c));
      (exists r :: r in w && r.customerId == c && r.timestamp == last) &&
      (forall r :: r in w && r.customerId == c ==> r.timestamp <= last) &&
      CustomerRecord(w, snapshot, c).recency * DAY <= snapshot - last < (CustomerRecord(w, snapshot, c).recency + 1) * DAY
    ensures (forall r :: r in w ==> r.timestamp + DAY <= snapshot) ==> CustomerRecord(w, snapshot, c).recency >= 1
  {
    var g := Group(w, CustomerOf, c);
    assert g != [] by {
      var x :| x in w && CustomerOf(x) == c;
      assert x in g;
    }
    var last := LastPurchase(g);
    var x :| x in g && x.timestamp == last;
    assert x in w && x.customerId == c;
  }

  /** Recency and Frequency of every record of the table are at least 1. */
  lemma TableRecord(w: seq<Row>, i: int)
    requires w != [] && 0 <= i < |Table(w)|
    ensures Table(w)[i].recency >= 1
    ensures Table(w)[i].frequency >= 1
    ensures Table(w)[i].frequency == |set r | r in w && r.customerId == Table(w)[i].id :: r.orderId|
    ensures Table(w)[i].monetary == CustomerPayments(w, Table(w)[i].id)
    ensures Table(w)[i] == CustomerRecord(w, Snapshot(w), Table(w)[i].id)
  {
    var ks := SortedKeys(w, CustomerOf);
    RecordAt(w, Snapshot(w), ks, i);
    SnapshotIsMaxPlusDay(w);
    RecordRecency(w, Snapshot(w), ks[i]);
    RecordFrequency(w, Snapshot(w), ks[i]);
    RecordMonetary(w, Snapshot(w), ks[i]);
  }

  lemma {:induction false} RecordsMonetary(w: seq<Row>, snapshot: int, ks: seq<int>)
    requires forall k :: k in ks ==> k in KeySet(w, CustomerOf)
    ensures SumMonetary(Records(w, snapshot, ks)) == GroupRevenues(w, CustomerOf, ks)
  {
    if ks != [] {
      RecordsMonetary(w, snapshot, ks[1..]);
      var t := Records(w, snapshot, ks);
      assert t[1..] == Records(w, snapshot, ks[1..]);
    }
  }

  /** The Monetary column adds up to the window's total payment. */
  lemma TableMonetary(w: seq<Row>)
    requires w != []
    ensures SumMonetary(Table(w)) == Revenue(w)
  {
    RecordsMonetary(w, Snapshot(w), SortedKeys(w, CustomerOf));
    GroupRevenuesTotal(w, CustomerOf);
  }
}
