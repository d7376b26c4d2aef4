/**
 * The input rows of the dashboard: one row per payment line of an order,
 * already parsed. Timestamps are whole seconds since 1970-01-01 00:00:00
 * (naive, no time zone) and payments are whole cents.
 */
module Orders {

  /** `pd.Timedelta(days=1)` in the model's unit of time. */
  const DAY: int := 86400

  /** `"2016-01-01"`, the lower bound of the trend tab, as an instant. */
  const TREND_FROM: int := 1451606400
  /** `"2017-01-01"`, the lower bound of the RFM tab, as an instant. */
  const RFM_FROM: int := 1483228800
  /** `"2018-12-31"`, the upper bound of both tabs: midnight at the start of that day. */
  const WINDOW_TO: int := 1546214400

  datatype Row = Row(orderId: int, customerId: int, timestamp: int, payment: int)

  /** Both bounds are compared with `>=` and `<=` against the full timestamp. */
  predicate InWindow(r: Row, lo: int, hi: int)
  {
    lo <= r.timestamp <= hi
  }

  /** The boolean-mask selection `df[(ts >= lo) & (ts <= hi)]`, keeping row order. */
  function Window(rows: seq<Row>, lo: int, hi: int): (w: seq<Row>)
    ensures |w| <= |rows|
    ensures forall r :: r in w <==> r in rows && InWindow(r, lo, hi)
  {
    if rows == [] then []
    else (if InWindow(rows[0], lo, hi) then [rows[0]] else []) + Window(rows[1..], lo, hi)
  }

  /** `payment_value.sum()`; the sum of nothing is 0. */
  function Revenue(rows: seq<Row>): int
  {
    if rows == [] then 0 else rows[0].payment + Revenue(rows[1..])
  }

  /** The order ids present; `order_id.nunique()` is its size. */
  function OrderIds(rows: seq<Row>): set<int>
  {
    set r | r in rows :: r.orderId
  }

  lemma {:induction false} WindowConcat(a: seq<Row>, b: seq<Row>, lo: int, hi: int)
    ensures Window(a + b, lo, hi) == Window(a, lo, hi) + Window(b, lo, hi)
  {
    if a == [] {
      assert a + b == b;
    } else {
      assert (a + b)[1..] == a[1..] + b;
      WindowConcat(a[1..], b, lo, hi);
    }
  }

  /** A row outside the window can be removed from anywhere without changing the selection. */
  lemma WindowSkipsOutside(a: seq<Row>, r: Row, b: seq<Row>, lo: int, hi: int)
    requires !InWindow(r, lo, hi)
    ensures Window(a + [r] + b, lo, hi) == Window(a + b, lo, hi)
  {
    WindowConcat(a + [r], b, lo, hi);
    WindowConcat(a, [r], lo, hi);
    WindowConcat(a, b, lo, hi);
    assert Window([r], lo, hi) == [] by {
      assert [r][1..] == [];
    }
  }

  /** A window no row falls in selects nothing. */
  lemma {:induction false} WindowEmpty(rows: seq<Row>, lo: int, hi: int)
    requires forall r :: r in rows ==> !InWindow(r, lo, hi)
    ensures Window(rows, lo, hi) == []
  {
    if rows != [] {
      assert rows[0] in rows;
      WindowEmpty(rows[1..], lo, hi);
    }
  }

  /** Selecting twice with the same bounds is selecting once. */
  lemma {:induction false} WindowIdempotent(rows: seq<Row>, lo: int, hi: int)
    ensures Window(Window(rows, lo, hi), lo, hi) == Window(rows, lo, hi)
  {
    if rows != [] {
      var head := if InWindow(rows[0], lo, hi) then [rows[0]] else [];
      WindowIdempotent(rows[1..], lo, hi);
      WindowConcat(head, Window(rows[1..], lo, hi), lo, hi);
      if head != [] {
        assert head[1..] == [];
      }
    }
  }

  lemma {:induction false} RevenueConcat(a: seq<Row>, b: seq<Row>)
    ensures Revenue(a + b) == Revenue(a) + Revenue(b)
  {
    if a == [] {
      assert a + b == b;
    } else {
      assert (a + b)[1..] == a[1..] + b;
      RevenueConcat(a[1..], b);
    }
  }

  lemma OrderIdsConcat(a: seq<Row>, b: seq<Row>)
    ensures OrderIds(a + b) == OrderIds(a) + OrderIds(b)
  {
  }
}
