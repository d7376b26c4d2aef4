/**
 * `DataFrame.groupby(key)` over rows with an integer key: the groups, the
 * sorted list of keys that groupby emits, and the facts that the groups
 * partition the rows (so sums over groups add up to the sum over all rows).
 */
module Grouping {

  import opened Orders

  /** Strictly increasing: sorted and free of duplicates. */
  predicate Increasing(ks: seq<int>)
  {
    forall i, j :: 0 <= i < j < |ks| ==> ks[i] < ks[j]
  }

  /** The keys present in the rows. */
  function KeySet(rows: seq<Row>, key: Row -> int): set<int>
  {
    set r | r in rows :: key(r)
  }

  /** The rows of one group, in their original order. */
  function Group(rows: seq<Row>, key: Row -> int, k: int): (g: seq<Row>)
    ensures |g| <= |rows|
    ensures forall r :: r in g <==> r in rows && key(r) == k
  {
    if rows == [] then []
    else (if key(rows[0]) == k then [rows[0]] else []) + Group(rows[1..], key, k)
  }

  lemma {:induction false} GroupConcat(a: seq<Row>, b: seq<Row>, key: Row -> int, k: int)
    ensures Group(a + b, key, k) == Group(a, key, k) + Group(b, key, k)
  {
    if a == [] {
      assert a + b == b;
    } else {
      assert (a + b)[1..] == a[1..] + b;
      GroupConcat(a[1..], b, key, k);
    }
  }

  /** The rows whose key is one of `ks`, in their original order. */
  function SelectIn(rows: seq<Row>, key: Row -> int, ks: seq<int>): (g: seq<Row>)
    ensures forall r :: r in g <==> r in rows && key(r) in ks
  {
    if rows == [] then []
    else (if key(rows[0]) in ks then [rows[0]] else []) + SelectIn(rows[1..], key, ks)
  }

  /** Adds one key to a strictly increasing list of keys. */
  function InsertKey(ks: seq<int>, k: int): (r: seq<int>)
    requires Increasing(ks)
    ensures Increasing(r)
    ensures forall x :: x in r <==> x in ks || x == k
  {
    if ks == [] then [k]
    else if k < ks[0] then [k] + ks
    else if k == ks[0] then ks
    else
      var rest := InsertKey(ks[1..], k);
      assert forall x :: x in ks[1..] ==> ks[0] < x;
      ConsIncreasing(ks[0], rest);
      [ks[0]] + rest
  }

  lemma ConsIncreasing(h: int, rest: seq<int>)
    requires Increasing(rest) && forall x :: x in rest ==> h < x
    ensures Increasing([h] + rest)
  {
    var r := [h] + rest;
    forall i, j | 0 <= i < j < |r|
      ensures r[i] < r[j]
    {
      assert r[j] == rest[j - 1] && r[j] in rest;
      if i > 0 {
        assert r[i] == rest[i - 1];
      }
    }
  }

  /** The group keys in ascending order, each once (groupby sorts its keys). */
  function SortedKeys(rows: seq<Row>, key: Row -> int): (ks: seq<int>)
    ensures Increasing(ks)
    ensures forall k :: k in ks <==> k in KeySet(rows, key)
    ensures |ks| == |KeySet(rows, key)|
  {
    if rows == [] then []
    else
      var ks := InsertKey(SortedKeys(rows[..|rows| - 1], key), key(rows[|rows| - 1]));
      KeySetSnoc(rows, key);
      IncreasingSetCard(ks, KeySet(rows, key));
      ks
  }

  /** The keys of the rows are those of all but the last row, and the last row's. */
  lemma KeySetSnoc(rows: seq<Row>, key: Row -> int)
    requires rows != []
    ensures KeySet(rows, key) == KeySet(rows[..|rows| - 1], key) + {key(rows[|rows| - 1])}
  {
    assert rows == rows[..|rows| - 1] + [rows[|rows| - 1]];
  }

  lemma IncreasingSetCard(ks: seq<int>, s: set<int>)
    requires Increasing(ks) && forall x :: x in ks <==> x in s
    ensures |ks| == |s|
  {
    IncreasingCard(ks);
    assert (set x | x in ks) == s;
  }

  /** A duplicate-free list has as many elements as its set of elements. */
  lemma {:induction false} IncreasingCard(ks: seq<int>)
    requires Increasing(ks)
    ensures |set x | x in ks| == |ks|
  {
    if ks != [] {
      IncreasingCard(ks[1..]);
      assert (set x | x in ks) == {ks[0]} + (set x | x in ks[1..]);
      assert ks[0] !in (set x | x in ks[1..]);
    }
  }

  /** Sum of the revenues of the groups with keys `ks`. */
  function GroupRevenues(rows: seq<Row>, key: Row -> int, ks: seq<int>): int
  {
    if ks == [] then 0 else Revenue(Group(rows, key, ks[0])) + GroupRevenues(rows, key, ks[1..])
  }

  /** Sum of the distinct-order counts of the groups with keys `ks`. */
  function GroupOrderCounts(rows: seq<Row>, key: Row -> int, ks: seq<int>): int
  {
    if ks == [] then 0 else |OrderIds(Group(rows, key, ks[0]))| + GroupOrderCounts(rows, key, ks[1..])
  }

  /** Every row holding an order id has the same key. */
  predicate OrdersWithinOneKey(rows: seq<Row>, key: Row -> int)
  {
    forall r1, r2 :: r1 in rows && r2 in rows && r1.orderId == r2.orderId ==> key(r1) == key(r2)
  }

  lemma {:induction false} SelectAll(rows: seq<Row>, key: Row -> int, ks: seq<int>)
    requires forall r :: r in rows ==> key(r) in ks
    ensures SelectIn(rows, key, ks) == rows
  {
    if rows != [] {
      SelectAll(rows[1..], key, ks);
      assert rows == [rows[0]] + rows[1..];
    }
  }

  /** Selecting the keys `[k] + ks` splits into the group of `k` and the rest. */
  lemma {:induction false} SelectSplitRevenue(rows: seq<Row>, key: Row -> int, k: int, ks: seq<int>)
    requires k !in ks
    ensures Revenue(SelectIn(rows, key, [k] + ks)) == Revenue(Group(rows, key, k)) + Revenue(SelectIn(rows, key, ks))
  {
    if rows != [] {
      SelectSplitRevenue(rows[1..], key, k, ks);
      var r := rows[0];
      RevenueConcat(if key(r) in [k] + ks then [r] else [], SelectIn(rows[1..], key, [k] + ks));
      RevenueConcat(if key(r) == k then [r] else [], Group(rows[1..], key, k));
      RevenueConcat(if key(r) in ks then [r] else [], SelectIn(rows[1..], key, ks));
    }
  }

  lemma {:induction false} SelectSplitOrders(rows: seq<Row>, key: Row -> int, k: int, ks: seq<int>)
    ensures OrderIds(SelectIn(rows, key, [k] + ks)) == OrderIds(Group(rows, key, k)) + OrderIds(SelectIn(rows, key, ks))
  {
    if rows != [] {
      SelectSplitOrders(rows[1..], key, k, ks);
      var r := rows[0];
      OrderIdsConcat(if key(r) in [k] + ks then [r] else [], SelectIn(rows[1..], key, [k] + ks));
      OrderIdsConcat(if key(r) == k then [r] else [], Group(rows[1..], key, k));
      OrderIdsConcat(if key(r) in ks then [r] else [], SelectIn(rows[1..], key, ks));
    }
  }

  /** The groups of distinct keys `ks` together carry the revenue of the rows whose key is in `ks`. */
  lemma {:induction false} GroupRevenuesSelect(rows: seq<Row>, key: Row -> int, ks: seq<int>)
    requires Increasing(ks)
    ensures GroupRevenues(rows, key, ks) == Revenue(SelectIn(rows, key, ks))
  {
    if ks == [] {
      NothingSelected(rows, key);
    } else {
      GroupRevenuesSelect(rows, key, ks[1..]);
      assert ks == [ks[0]] + ks[1..];
      SelectSplitRevenue(rows, key, ks[0], ks[1..]);
    }
  }

  lemma {:induction false} NothingSelected(rows: seq<Row>, key: Row -> int)
    ensures SelectIn(rows, key, []) == []
  {
    if rows != [] {
      NothingSelected(rows[1..], key);
    }
  }

  /** The per-group distinct-order counts add up to at least the distinct-order count of the selected rows. */
  lemma {:induction false} GroupOrderCountsSelect(rows: seq<Row>, key: Row -> int, ks: seq<int>)
    requires Increasing(ks)
    ensures |OrderIds(SelectIn(rows, key, ks))| <= GroupOrderCounts(rows, key, ks)
  {
    if ks == [] {
      NothingSelected(rows, key);
    } else {
      GroupOrderCountsSelect(rows, key, ks[1..]);
      assert ks == [ks[0]] + ks[1..];
      SelectSplitOrders(rows, key, ks[0], ks[1..]);
      var a := OrderIds(Group(rows, key, ks[0]));
      var b := OrderIds(SelectIn(rows, key, ks[1..]));
      CountStep(OrderIds(SelectIn(rows, key, ks)), a, b, GroupOrderCounts(rows, key, ks[1..]), false);
    }
  }

  /** When no order spans two keys, the per-group counts add up to exactly that count. */
  lemma {:induction false} GroupOrderCountsSelectExact(rows: seq<Row>, key: Row -> int, ks: seq<int>)
    requires Increasing(ks) && OrdersWithinOneKey(rows, key)
    ensures |OrderIds(SelectIn(rows, key, ks))| == GroupOrderCounts(rows, key, ks)
  {
    if ks == [] {
      NothingSelected(rows, key);
    } else {
      GroupOrderCountsSelectExact(rows, key, ks[1..]);
      assert ks == [ks[0]] + ks[1..];
      SelectSplitOrders(rows, key, ks[0], ks[1..]);
      var a := OrderIds(Group(rows, key, ks[0]));
      var b := OrderIds(SelectIn(rows, key, ks[1..]));
      OrdersDisjoint(rows, key, ks[0], ks[1..]);
      CountStep(OrderIds(SelectIn(rows, key, ks)), a, b, GroupOrderCounts(rows, key, ks[1..]), true);
    }
  }

  /** One step of the count: the union of a group's orders with the rest's. */
  lemma CountStep(all: set<int>, a: set<int>, b: set<int>, rest: int, disjoint: bool)
    requires all == a + b && |b| <= rest
    requires disjoint ==> |b| == rest && a * b == {}
    ensures |all| <= |a| + rest
    ensures disjoint ==> |all| == |a| + rest
  {
    UnionCard(a, b);
  }

  lemma UnionCard(a: set<int>, b: set<int>)
    ensures |a + b| <= |a| + |b|
    ensures a * b == {} ==> |a + b| == |a| + |b|
  {
    assert |a + b| + |a * b| == |a| + |b|;
  }

  /** When no order spans two keys, the orders of one group and of other keys are disjoint. */
  lemma OrdersDisjoint(rows: seq<Row>, key: Row -> int, k: int, ks: seq<int>)
    requires OrdersWithinOneKey(rows, key) && k !in ks
    ensures OrderIds(Group(rows, key, k)) * OrderIds(SelectIn(rows, key, ks)) == {}
  {
    var a := OrderIds(Group(rows, key, k));
    var b := OrderIds(SelectIn(rows, key, ks));
    forall o | o in a
      ensures o !in b
    {
      var r1 :| r1 in Group(rows, key, k) && r1.orderId == o;
    }
  }

  /** Over all keys present, the groups carry exactly the revenue of all rows. */
  lemma GroupRevenuesTotal(rows: seq<Row>, key: Row -> int)
    ensures GroupRevenues(rows, key, SortedKeys(rows, key)) == Revenue(rows)
  {
    var ks := SortedKeys(rows, key);
    GroupRevenuesSelect(rows, key, ks);
    SelectAll(rows, key, ks);
  }

  /** Over all keys present, the per-group order counts relate to the order count of all rows. */
  lemma GroupOrderCountsTotal(rows: seq<Row>, key: Row -> int)
    ensures |OrderIds(rows)| <= GroupOrderCounts(rows, key, SortedKeys(rows, key))
    ensures OrdersWithinOneKey(rows, key) ==> |OrderIds(rows)| == GroupOrderCounts(rows, key, SortedKeys(rows, key))
  {
    var ks := SortedKeys(rows, key);
    GroupOrderCountsSelect(rows, key, ks);
    if OrdersWithinOneKey(rows, key) {
      GroupOrderCountsSelectExact(rows, key, ks);
    }
    SelectAll(rows, key, ks);
  }
}
