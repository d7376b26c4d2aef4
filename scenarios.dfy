/**
 * A worked example of the segmentation tab: three customers whose orders
 * all fall in January 2018. Customer 1 placed three orders of 100.00,
 * 50.00 and 50.00 on the 1st, 2nd and 3rd, customer 2 one order of 200.00
 * on the 10th and customer 3 one order of 10.00 on the 20th. Recency and
 * frequency cut, but Monetary ties at the top and the M_score qcut raises.
 * Had customer 2 spent 150.00, all three cuts would succeed.
 */
module Scenarios {

  import opened Results
  import opened Orders
  import opened Grouping
  import opened Quantiles
  import opened Ranking
  import opened Rfm
  import opened Segments

  /** 2018-01-01 00:00:00. */
  const JAN1: int := 1514764800

  /** Customer 1's three orders. */
  function FirstRows(): seq<Row>
  {
    [Row(1, 1, JAN1, 10000), Row(2, 1, JAN1 + DAY, 5000), Row(3, 1, JAN1 + 2 * DAY, 5000)]
  }

  function January(): seq<Row>
  {
    [ Row(1, 1, JAN1, 10000), Row(2, 1, JAN1 + DAY, 5000), Row(3, 1, JAN1 + 2 * DAY, 5000),
      Row(4, 2, JAN1 + 9 * DAY, 20000),
      Row(5, 3, JAN1 + 19 * DAY, 1000) ]
  }

  lemma JanuaryWindow()
    ensures Window(January(), RFM_FROM, WINDOW_TO) == January()
  {
  }

  lemma JanuaryLastPurchase(rows: seq<Row>)
    requires rows == January()
    ensures LastPurchase(rows) == JAN1 + 19 * DAY
  {
    var last := LastPurchase(rows);
    assert rows[4] in rows;
    var r :| r in rows && r.timestamp == last;
  }

  lemma KeysStep(rows: seq<Row>, k: int)
    requires 0 <= k < |rows|
    ensures SortedKeys(rows[..k + 1], CustomerOf) == InsertKey(SortedKeys(rows[..k], CustomerOf), rows[k].customerId)
  {
    assert rows[..k + 1][..k] == rows[..k];
  }

  lemma Inserts()
    ensures InsertKey([], 1) == [1]
    ensures InsertKey([1], 1) == [1]
    ensures InsertKey([1], 2) == [1, 2]
    ensures InsertKey([1, 2], 3) == [1, 2, 3]
  {
    assert [1][1..] == [];
    assert [1, 2][1..] == [2];
    assert [2][1..] == [];
  }

  /** The customer ids seen after the first `k` rows. */
  lemma KeysAfter(k: int)
    requires 1 <= k <= 5
    ensures SortedKeys(January()[..k], CustomerOf) == if k <= 3 then [1] else if k == 4 then [1, 2] else [1, 2, 3]
  {
    var rows := January();
    Inserts();
    if k == 1 {
      assert rows[..0] == [];
      KeysStep(rows, 0);
    } else {
      KeysAfter(k - 1);
      KeysStep(rows, k - 1);
    }
  }

  /** The customers in ascending id order. */
  lemma JanuaryKeys(rows: seq<Row>)
    requires rows == January()
    ensures SortedKeys(rows, CustomerOf) == [1, 2, 3]
  {
    KeysAfter(5);
    assert January()[..5] == January();
  }

  lemma FirstRowsGroup()
    ensures Group(January(), CustomerOf, 1) == FirstRows()
  {
  }

  lemma FirstRowsFacts()
    ensures |OrderIds(FirstRows())| == 3
    ensures LastPurchase(FirstRows()) == JAN1 + 2 * DAY
    ensures Revenue(FirstRows()) == 20000
  {
    var g := FirstRows();
    assert g[0] in g && g[1] in g && g[2] in g;
    assert OrderIds(g) == {1, 2, 3};
  }

  lemma FirstCustomer(rows: seq<Row>, snapshot: int)
    requires rows == January() && snapshot == JAN1 + 20 * DAY
    ensures 1 in KeySet(rows, CustomerOf)
    ensures CustomerRecord(rows, snapshot, 1) == Customer(1, 18, 3, 20000)
  {
    assert rows[0] in rows;
    FirstRowsGroup();
    FirstRowsFacts();
    RecordFields(rows, snapshot, 1);
    assert Days(18 * DAY) == 18;
  }

  lemma SingleRowFacts(r: Row)
    ensures |OrderIds([r])| == 1 && LastPurchase([r]) == r.timestamp && Revenue([r]) == r.payment
  {
    assert OrderIds([r]) == {r.orderId};
  }

  lemma SecondCustomer(rows: seq<Row>, snapshot: int)
    requires rows == January() && snapshot == JAN1 + 20 * DAY
    ensures 2 in KeySet(rows, CustomerOf)
    ensures CustomerRecord(rows, snapshot, 2) == Customer(2, 11, 1, 20000)
  {
    assert rows[3] in rows;
    assert Group(January(), CustomerOf, 2) == [rows[3]];
    SingleRowFacts(rows[3]);
    RecordFields(rows, snapshot, 2);
    assert Days(11 * DAY) == 11;
  }

  lemma ThirdCustomer(rows: seq<Row>, snapshot: int)
    requires rows == January() && snapshot == JAN1 + 20 * DAY
    ensures 3 in KeySet(rows, CustomerOf)
    ensures CustomerRecord(rows, snapshot, 3) == Customer(3, 1, 1, 1000)
  {
    assert rows[4] in rows;
    assert Group(January(), CustomerOf, 3) == [rows[4]];
    SingleRowFacts(rows[4]);
    RecordFields(rows, snapshot, 3);
    assert Days(DAY) == 1;
  }

  lemma RecordsOfThree(w: seq<Row>, snapshot: int, ks: seq<int>, c0: Customer, c1: Customer, c2: Customer)
    requires |ks| == 3 && forall k :: k in ks ==> k in KeySet(w, CustomerOf)
    requires CustomerRecord(w, snapshot, ks[0]) == c0
    requires CustomerRecord(w, snapshot, ks[1]) == c1
    requires CustomerRecord(w, snapshot, ks[2]) == c2
    ensures Records(w, snapshot, ks) == [c0, c1, c2]
  {
    RecordAt(w, snapshot, ks, 0);
    RecordAt(w, snapshot, ks, 1);
    RecordAt(w, snapshot, ks, 2);
  }

  /** The RFM table: Recency 18, 11 and 1 days, Frequency 3, 1 and 1, Monetary 200.00, 200.00 and 10.00. */
  lemma JanuaryTable(rows: seq<Row>)
    requires rows == January()
    ensures Table(rows) == [Customer(1, 18, 3, 20000), Customer(2, 11, 1, 20000), Customer(3, 1, 1, 1000)]
  {
    JanuarySnapshot(rows);
    JanuaryKeys(rows);
    var snapshot := JAN1 + 20 * DAY;
    FirstCustomer(rows, snapshot);
    SecondCustomer(rows, snapshot);
    ThirdCustomer(rows, snapshot);
    RecordsOfThree(rows, snapshot, [1, 2, 3],
      Customer(1, 18, 3, 20000), Customer(2, 11, 1, 20000), Customer(3, 1, 1, 1000));
  }

  /** The snapshot is 2018-01-21, a day after the last purchase. */
  lemma JanuarySnapshot(rows: seq<Row>)
    requires rows == January()
    ensures rows != [] && Snapshot(rows) == JAN1 + 20 * DAY
  {
    JanuaryLastPurchase(rows);
  }

  /** The three customers' columns. */
  lemma JanuaryColumns(t: seq<Customer>)
    requires t == [Customer(1, 18, 3, 20000), Customer(2, 11, 1, 20000), Customer(3, 1, 1, 1000)]
    ensures Recencies(t) == [18, 11, 1]
    ensures Monetaries(t) == [20000, 20000, 1000]
  {
  }

  /** The recency column has distinct values and the Monetary column a tie. */
  lemma TiedCuts(t: seq<Customer>)
    requires t == [Customer(1, 18, 3, 20000), Customer(2, 11, 1, 20000), Customer(3, 1, 1, 1000)]
    ensures RCut(t).Ok? && FCut(t).Ok? && MCut(t).Err?
  {
    JanuaryColumns(t);
    var rv := Recencies(t);
    var mv := Monetaries(t);
    assert NoDup(rv);
    assert !NoDup(mv) by {
      assert mv[0] == mv[1];
    }
    QcutSmallIff(rv, Descending);
    FrequencyNeverFails(t);
    QcutSmallIff(mv, Ascending);
  }

  /**
   * With these three customers the tab fails because two of them tie in
   * Monetary: the recency and frequency cuts succeed, the Monetary edges repeat.
   */
  lemma TiedSpendingFails()
    ensures DashboardSegmentation(January()) == Err(QuantileError(Monetary))
  {
    JanuaryWindow();
    JanuaryTable(January());
    var t := Table(January());
    TiedCuts(t);
    ScoringErrors(t);
  }

  lemma DistinctColumns(t: seq<Customer>)
    requires t == [Customer(1, 18, 3, 20000), Customer(2, 11, 1, 15000), Customer(3, 1, 1, 1000)]
    ensures Recencies(t) == [18, 11, 1]
    ensures Frequencies(t) == [3, 1, 1]
    ensures Monetaries(t) == [20000, 15000, 1000]
  {
  }

  lemma DistinctRanks()
    ensures FirstRanks([3, 1, 1]) == [3, 1, 2]
  {
    var v := [3, 1, 1];
    assert CountPreceding(v, 0, 3) == 2;
    assert CountPreceding(v, 1, 3) == 0;
    assert CountPreceding(v, 2, 3) == 1;
  }

  /** The cut of three distinct values `a < b < c`, given the label each position should get. */
  lemma CutOfThree(v: seq<int>, l: Labels, a: int, b: int, c: int, out: seq<int>)
    requires a < b < c && multiset(v) == multiset([a, b, c]) && |v| == 3 && |out| == 3
    requires forall i :: 0 <= i < 3 ==>
      out[i] == (if v[i] == a then Label(l, 1) else if v[i] == b then Label(l, 2) else Label(l, 4))
    ensures Qcut(v, l) == Ok(out)
  {
    ThreeDistinctScores(v, l, a, b, c);
    var q := Qcut(v, l).value;
    forall i | 0 <= i < 3
      ensures q[i] == out[i]
    {
      OneOfThree(v, a, b, c, i);
    }
    assert q == out;
  }

  lemma OneOfThree(v: seq<int>, a: int, b: int, c: int, i: int)
    requires multiset(v) == multiset([a, b, c]) && 0 <= i < |v|
    ensures v[i] == a || v[i] == b || v[i] == c
  {
    assert v[i] in multiset(v);
    assert v[i] in multiset([a, b, c]);
  }

  lemma DistinctRecencyCut(t: seq<Customer>)
    requires t == [Customer(1, 18, 3, 20000), Customer(2, 11, 1, 15000), Customer(3, 1, 1, 1000)]
    ensures RCut(t) == Ok([1, 3, 4])
  {
    DistinctColumns(t);
    CutOfThree([18, 11, 1], Descending, 1, 11, 18, [1, 3, 4]);
  }

  lemma DistinctFrequencyCut(t: seq<Customer>)
    requires t == [Customer(1, 18, 3, 20000), Customer(2, 11, 1, 15000), Customer(3, 1, 1, 1000)]
    ensures FCut(t) == Ok([4, 1, 2])
  {
    DistinctColumns(t);
    DistinctRanks();
    CutOfThree([3, 1, 2], Ascending, 1, 2, 3, [4, 1, 2]);
  }

  lemma DistinctMonetaryCut(t: seq<Customer>)
    requires t == [Customer(1, 18, 3, 20000), Customer(2, 11, 1, 15000), Customer(3, 1, 1, 1000)]
    ensures MCut(t) == Ok([4, 2, 1])
  {
    DistinctColumns(t);
    CutOfThree([20000, 15000, 1000], Ascending, 1000, 15000, 20000, [4, 2, 1]);
  }

  /**
   * The same three customers with customer 2 spending 150.00: all three
   * cuts succeed with only three customers. Customer 1, the least recent,
   * is At Risk; customers 2 and 3 are Potential.
   */
  lemma DistinctSpendingSucceeds(t: seq<Customer>)
    requires t == [Customer(1, 18, 3, 20000), Customer(2, 11, 1, 15000), Customer(3, 1, 1, 1000)]
    ensures Scoring(t).Ok?
    ensures var s := Scoring(t).value;
      s[0].scores == Scores(1, 4, 4) && s[1].scores == Scores(3, 1, 2) && s[2].scores == Scores(4, 2, 1) &&
      s[0].segment == AtRisk && s[1].segment == Potential && s[2].segment == Potential
  {
    DistinctRecencyCut(t);
    DistinctFrequencyCut(t);
    DistinctMonetaryCut(t);
    ScoringErrors(t);
    ScoringColumns(t, 0);
    ScoringColumns(t, 1);
    ScoringColumns(t, 2);
  }
}
