/**
 * The "Transaction Trend" tab: the rows of a date window grouped by calendar
 * month, with the distinct-order count and the payment sum of every month,
 * and the two headline figures (total distinct orders, total revenue) over
 * the whole window.
 */
module Trend {

  import opened Orders
  import opened Grouping
  import Calendar

  /** The `year_month` column: the monthly period of the purchase timestamp. */
  function YearMonth(r: Row): int
  {
    Calendar.MonthKey(r.timestamp)
  }

  /** One row of `monthly`: the month, `order_id` nunique and `payment_value` sum. */
  datatype Bucket = Bucket(month: int, orders: nat, revenue: int)

  /** What the tab shows: the monthly table and the two KPI figures. */
  datatype TrendReport = TrendReport(monthly: seq<Bucket>, totalOrders: nat, totalRevenue: int)

  /** The aggregated row of every month in `ks`, in the order of `ks`. */
  function Buckets(rows: seq<Row>, ks: seq<int>): (bs: seq<Bucket>)
    ensures |bs| == |ks|
    ensures forall i :: 0 <= i < |ks| ==> bs[i].month == ks[i]
    ensures forall i :: 0 <= i < |ks| ==>
      bs[i].orders == |set r | r in rows && YearMonth(r) == ks[i] :: r.orderId|
    ensures forall i :: 0 <= i < |ks| ==> bs[i].revenue == Revenue(Group(rows, YearMonth, ks[i]))
  {
    if ks == [] then []
    else
      var g := Group(rows, YearMonth, ks[0]);
      MonthOrderIds(rows, ks[0]);
      [Bucket(ks[0], |OrderIds(g)|, Revenue(g))] + Buckets(rows, ks[1..])
  }

  /** The order ids of a month's group are those of the rows dated in that month. */
  lemma MonthOrderIds(rows: seq<Row>, k: int)
    ensures OrderIds(Group(rows, YearMonth, k)) == set r | r in rows && YearMonth(r) == k :: r.orderId
  {
  }

  /** `groupby('year_month').agg(...)`: one bucket per month present, months ascending. */
  function Monthly(rows: seq<Row>): seq<Bucket>
  {
    Buckets(rows, SortedKeys(rows, YearMonth))
  }

  /** The trend tab over the window `lo <= timestamp <= hi`. */
  function Trend(rows: seq<Row>, lo: int, hi: int): TrendReport
  {
    var w := Window(rows, lo, hi);
    TrendReport(Monthly(w), |OrderIds(w)|, Revenue(w))
  }

  /** The tab as the dashboard shows it: from 2016-01-01 to 2018-12-31 00:00:00. */
  function DashboardTrend(rows: seq<Row>): TrendReport
  {
    Trend(rows, TREND_FROM, WINDOW_TO)
  }

  /** The x-axis labels: `monthly['year_month'].astype(str)`. */
  function MonthLabels(bs: seq<Bucket>): (ls: seq<string>)
    requires forall i :: 0 <= i < |bs| ==> 0 <= Calendar.YearOf(bs[i].month) <= 9999
    ensures |ls| == |bs|
    ensures forall i :: 0 <= i < |bs| ==> |ls[i]| == 7 && Calendar.ParseLabel(ls[i]) == bs[i].month
  {
    if bs == [] then []
    else
      Calendar.LabelRoundTrip(bs[0].month);
      [Calendar.Label(bs[0].month)] + MonthLabels(bs[1..])
  }

  function SumRevenue(bs: seq<Bucket>): int
  {
    if bs == [] then 0 else bs[0].revenue + SumRevenue(bs[1..])
  }

  function SumOrders(bs: seq<Bucket>): int
  {
    if bs == [] then 0 else bs[0].orders + SumOrders(bs[1..])
  }

  /** The bucket of each month carries the payment sum of exactly that month's rows. */
  lemma {:induction false} BucketRevenues(rows: seq<Row>, ks: seq<int>)
    ensures SumRevenue(Buckets(rows, ks)) == GroupRevenues(rows, YearMonth, ks)
    ensures forall i :: 0 <= i < |ks| ==> Buckets(rows, ks)[i].revenue == Revenue(Group(rows, YearMonth, ks[i]))
  {
    if ks != [] {
      BucketRevenues(rows, ks[1..]);
      var bs := Buckets(rows, ks);
      assert bs[1..] == Buckets(rows, ks[1..]);
    }
  }

  lemma {:induction false} BucketOrders(rows: seq<Row>, ks: seq<int>)
    ensures SumOrders(Buckets(rows, ks)) == GroupOrderCounts(rows, YearMonth, ks)
  {
    if ks != [] {
      BucketOrders(rows, ks[1..]);
      var bs := Buckets(rows, ks);
      assert bs[1..] == Buckets(rows, ks[1..]);
    }
  }

  /** The months a bucket list covers. */
  function MonthsOf(bs: seq<Bucket>): set<int>
  {
    set b | b in bs :: b.month
  }

  lemma {:induction false} BucketMonths(rows: seq<Row>, ks: seq<int>)
    ensures MonthsOf(Buckets(rows, ks)) == set k | k in ks
  {
    if ks != [] {
      BucketMonths(rows, ks[1..]);
      var bs := Buckets(rows, ks);
      assert bs == [bs[0]] + Buckets(rows, ks[1..]);
      assert ks == [ks[0]] + ks[1..];
    }
  }

  /** The months present among the in-window rows. */
  lemma WindowMonths(rows: seq<Row>, lo: int, hi: int)
    ensures KeySet(Window(rows, lo, hi), YearMonth) == set r | r in rows && InWindow(r, lo, hi) :: YearMonth(r)
  {
  }

  /**
   * The months of the table are strictly ascending, and a month appears in
   * the table exactly when some in-window row falls in it.
   */
  lemma TrendMonths(rows: seq<Row>, lo: int, hi: int)
    ensures var t := Trend(rows, lo, hi);
      forall i, j :: 0 <= i < j < |t.monthly| ==> t.monthly[i].month < t.monthly[j].month
    ensures MonthsOf(Trend(rows, lo, hi).monthly) == set r | r in rows && InWindow(r, lo, hi) :: YearMonth(r)
  {
    var w := Window(rows, lo, hi);
    var ks := SortedKeys(w, YearMonth);
    WindowMonths(rows, lo, hi);
    BucketMonths(w, ks);
    assert (set k | k in ks) == KeySet(w, YearMonth);
  }

  /** The distinct in-window order ids of one month. */
  lemma WindowMonthOrders(rows: seq<Row>, lo: int, hi: int, k: int)
    ensures (set r | r in Window(rows, lo, hi) && YearMonth(r) == k :: r.orderId)
      == (set r | r in rows && InWindow(r, lo, hi) && YearMonth(r) == k :: r.orderId)
  {
  }

  /**
   * Each bucket's order count is the number of distinct order ids among the
   * in-window rows of its month, and its revenue is the payment sum of those
   * rows, every installment counted.
   */
  lemma TrendBuckets(rows: seq<Row>, lo: int, hi: int)
    ensures var t := Trend(rows, lo, hi);
      forall i :: 0 <= i < |t.monthly| ==>
        t.monthly[i].orders == |set r | r in rows && InWindow(r, lo, hi) && YearMonth(r) == t.monthly[i].month :: r.orderId|
    ensures var t := Trend(rows, lo, hi); var w := Window(rows, lo, hi);
      forall i :: 0 <= i < |t.monthly| ==>
        t.monthly[i].revenue == Revenue(Group(w, YearMonth, t.monthly[i].month))
  {
    var w := Window(rows, lo, hi);
    var ks := SortedKeys(w, YearMonth);
    var bs := Buckets(w, ks);
    BucketRevenues(w, ks);
    forall i | 0 <= i < |bs|
      ensures bs[i].orders == |set r | r in rows && InWindow(r, lo, hi) && YearMonth(r) == bs[i].month :: r.orderId|
    {
      WindowMonthOrders(rows, lo, hi, ks[i]);
    }
  }

  /** Total revenue is the sum of the monthly revenues. */
  lemma TrendRevenueCoverage(rows: seq<Row>, lo: int, hi: int)
    ensures SumRevenue(Trend(rows, lo, hi).monthly) == Trend(rows, lo, hi).totalRevenue
  {
    var w := Window(rows, lo, hi);
    BucketRevenues(w, SortedKeys(w, YearMonth));
    GroupRevenuesTotal(w, YearMonth);
  }

  /** Every row of an order carries the same purchase timestamp. */
  predicate OneTimestampPerOrder(rows: seq<Row>)
  {
    forall r1, r2 :: r1 in rows && r2 in rows && r1.orderId == r2.orderId ==> r1.timestamp == r2.timestamp
  }

  /**
   * Total orders is the number of distinct in-window order ids. The monthly
   * counts add up to at least that, and to exactly that when every order
   * has one purchase timestamp.
   */
  lemma TrendOrderCoverage(rows: seq<Row>, lo: int, hi: int)
    ensures Trend(rows, lo, hi).totalOrders == |set r | r in rows && InWindow(r, lo, hi) :: r.orderId|
    ensures Trend(rows, lo, hi).totalOrders <= SumOrders(Trend(rows, lo, hi).monthly)
    ensures OneTimestampPerOrder(rows) ==> Trend(rows, lo, hi).totalOrders == SumOrders(Trend(rows, lo, hi).monthly)
  {
    var w := Window(rows, lo, hi);
    assert OrderIds(w) == set r | r in rows && InWindow(r, lo, hi) :: r.orderId;
    BucketOrders(w, SortedKeys(w, YearMonth));
    GroupOrderCountsTotal(w, YearMonth);
  }

  /** An empty window gives an empty table and zero figures. */
  lemma TrendEmpty(rows: seq<Row>, lo: int, hi: int)
    requires forall r :: r in rows ==> !InWindow(r, lo, hi)
    ensures Trend(rows, lo, hi) == TrendReport([], 0, 0)
  {
    WindowEmpty(rows, lo, hi);
  }

  /** A row outside the window changes neither the table nor the figures. */
  lemma TrendIgnoresOutside(a: seq<Row>, r: Row, b: seq<Row>, lo: int, hi: int)
    requires !InWindow(r, lo, hi)
    ensures Trend(a + [r] + b, lo, hi) == Trend(a + b, lo, hi)
  {
    WindowSkipsOutside(a, r, b, lo, hi);
  }

  /** Filtering the rows to the window first changes nothing. */
  lemma TrendOfWindow(rows: seq<Row>, lo: int, hi: int)
    ensures Trend(Window(rows, lo, hi), lo, hi) == Trend(rows, lo, hi)
  {
    WindowIdempotent(rows, lo, hi);
  }

  /** A single order of 100.00 on 2018-06-15: one bucket for June 2018, and totals to match. */
  lemma SingleOrderJune2018()
    ensures DashboardTrend([Row(1, 1, 1529020800, 10000)])
      == TrendReport([Bucket(2018 * 12 + 5, 1, 10000)], 1, 10000)
    ensures MonthLabels(DashboardTrend([Row(1, 1, 1529020800, 10000)]).monthly) == ["2018-06"]
  {
    SingleOrderReport([Row(1, 1, 1529020800, 10000)]);
    JuneLabels([Bucket(2018 * 12 + 5, 1, 10000)]);
  }

  lemma SingleOrderReport(rows: seq<Row>)
    requires rows == [Row(1, 1, 1529020800, 10000)]
    ensures DashboardTrend(rows) == TrendReport([Bucket(2018 * 12 + 5, 1, 10000)], 1, 10000)
  {
    JuneWindow(rows);
    JuneKeys(rows);
    JuneGroup(rows);
    assert Buckets(rows, [2018 * 12 + 5]) == [Bucket(2018 * 12 + 5, 1, 10000)] + Buckets(rows, []);
  }

  lemma JuneWindow(rows: seq<Row>)
    requires rows == [Row(1, 1, 1529020800, 10000)]
    ensures Window(rows, TREND_FROM, WINDOW_TO) == rows
  {
    assert InWindow(rows[0], TREND_FROM, WINDOW_TO);
  }

  lemma JuneKeys(rows: seq<Row>)
    requires rows == [Row(1, 1, 1529020800, 10000)]
    ensures SortedKeys(rows, YearMonth) == [2018 * 12 + 5]
  {
    Calendar.MidJune2018();
    assert rows[..0] == [];
    assert YearMonth(rows[0]) == 2018 * 12 + 5;
  }

  lemma JuneGroup(rows: seq<Row>)
    requires rows == [Row(1, 1, 1529020800, 10000)]
    ensures Group(rows, YearMonth, 2018 * 12 + 5) == rows
    ensures OrderIds(rows) == {1} && |OrderIds(rows)| == 1 && Revenue(rows) == 10000
  {
    Calendar.MidJune2018();
    assert rows[1..] == [];
    assert OrderIds(rows) == {1};
  }

  lemma JuneLabels(bs: seq<Bucket>)
    requires bs == [Bucket(2018 * 12 + 5, 1, 10000)]
    ensures MonthLabels(bs) == ["2018-06"]
  {
    Calendar.June2018Label();
    assert MonthLabels(bs) == [Calendar.Label(2018 * 12 + 5)];
  }
}
