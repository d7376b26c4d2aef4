/**
 * The projections the segmentation tab draws from the scored table: the
 * customer count of every segment (`value_counts`), the Monetary sum of
 * every segment (`groupby('Segment')['Monetary'].sum()`), and the ten
 * customers with the largest Monetary (`sort_values(...).head(10)`).
 */
module Views {

  import opened Sorting
  import opened Rfm
  import opened Segments

  /** The customers of segment `g`. */
  function CountSegment(s: seq<Scored>, g: Segment): nat
  {
    if s == [] then 0 else (if s[0].segment == g then 1 else 0) + CountSegment(s[1..], g)
  }

  /** The Monetary sum of segment `g`. */
  function SegmentMonetary(s: seq<Scored>, g: Segment): int
  {
    if s == [] then 0 else (if s[0].segment == g then s[0].customer.monetary else 0) + SegmentMonetary(s[1..], g)
  }

  /** The Monetary sum of all rows. */
  function TotalMonetary(s: seq<Scored>): int
  {
    if s == [] then 0 else s[0].customer.monetary + TotalMonetary(s[1..])
  }

  /** The segments that occur. */
  function Present(s: seq<Scored>): set<Segment>
  {
    set x | x in s :: x.segment
  }

  lemma {:induction false} CountPresent(s: seq<Scored>, g: Segment)
    ensures CountSegment(s, g) > 0 <==> g in Present(s)
  {
    if s != [] {
      CountPresent(s[1..], g);
      assert s == [s[0]] + s[1..];
    }
  }

  /** `rfm['Segment'].value_counts()`: a count for each segment that occurs, and none for the others. */
  function SegmentCounts(s: seq<Scored>): (counts: map<Segment, nat>)
    ensures counts.Keys == Present(s)
    ensures forall g :: g in counts ==> counts[g] >= 1
  {
    assert forall g :: g in Present(s) ==> CountSegment(s, g) > 0 by {
      forall g | g in Present(s) {
        CountPresent(s, g);
      }
    }
    map g | g in Present(s) :: CountSegment(s, g)
  }

  /** `rfm.groupby('Segment')['Monetary'].sum()`: a sum for each segment that occurs. */
  function SegmentRevenue(s: seq<Scored>): (sums: map<Segment, int>)
    ensures sums.Keys == Present(s)
  {
    map g | g in Present(s) :: SegmentMonetary(s, g)
  }

  /** A present segment's entry, and `absent` for one that does not occur. */
  function Lookup<V>(m: map<Segment, V>, g: Segment, absent: V): V
  {
    if g in m then m[g] else absent
  }

  lemma {:induction false} CountsPartition(s: seq<Scored>)
    ensures CountSegment(s, Loyal) + CountSegment(s, Potential) + CountSegment(s, AtRisk) == |s|
  {
    if s != [] {
      CountsPartition(s[1..]);
    }
  }

  lemma {:induction false} MonetaryPartition(s: seq<Scored>)
    ensures SegmentMonetary(s, Loyal) + SegmentMonetary(s, Potential) + SegmentMonetary(s, AtRisk) == TotalMonetary(s)
  {
    if s != [] {
      MonetaryPartition(s[1..]);
    }
  }

  /** Every customer is counted in exactly one segment: the counts add up to the number of customers. */
  lemma SegmentCountsTotal(s: seq<Scored>)
    ensures var m := SegmentCounts(s); Lookup(m, Loyal, 0) + Lookup(m, Potential, 0) + Lookup(m, AtRisk, 0) == |s|
  {
    CountsPartition(s);
    CountPresent(s, Loyal);
    CountPresent(s, Potential);
    CountPresent(s, AtRisk);
  }

  /** The per-segment revenues add up to the Monetary total. */
  lemma SegmentRevenueTotal(s: seq<Scored>)
    ensures var m := SegmentRevenue(s); Lookup(m, Loyal, 0) + Lookup(m, Potential, 0) + Lookup(m, AtRisk, 0) == TotalMonetary(s)
  {
    MonetaryPartition(s);
    forall g | g !in Present(s)
      ensures SegmentMonetary(s, g) == 0
    {
      AbsentMonetary(s, g);
    }
  }

  lemma {:induction false} AbsentMonetary(s: seq<Scored>, g: Segment)
    requires g !in Present(s)
    ensures SegmentMonetary(s, g) == 0
  {
    if s != [] {
      assert s[0] in s;
      assert Present(s[1..]) <= Present(s);
      AbsentMonetary(s[1..], g);
    }
  }

  /** The sort key of `sort_values(by="Monetary", ascending=False)`. */
  function NegMonetary(x: Scored): int
  {
    -x.customer.monetary
  }

  function Monetary(x: Scored): int
  {
    x.customer.monetary
  }

  function Min(a: int, b: int): int
  {
    if a <= b then a else b
  }

  /**
   * `sort_values(by="Monetary", ascending=False).head(k)`: the first `k`
   * rows by Monetary, largest first; no row left out has a larger Monetary
   * than the last row kept.
   */
  function TopByMonetary(s: seq<Scored>, k: nat): (top: seq<Scored>)
    ensures |top| == Min(k, |s|)
    ensures forall i, j :: 0 <= i < j < |top| ==> Monetary(top[i]) >= Monetary(top[j])
    ensures multiset(top) <= multiset(s)
    ensures |s| <= k ==> multiset(top) == multiset(s)
    ensures top != [] ==> forall x :: x in multiset(s) - multiset(top) ==> Monetary(x) <= Monetary(top[|top| - 1])
  {
    var sorted := SortBy(s, NegMonetary);
    var n := Min(k, |s|);
    TakeSorted(s, sorted, k, n);
    sorted[..n]
  }

  /** The first `n` rows of a table sorted by descending Monetary, and what they leave out. */
  lemma TakeSorted(s: seq<Scored>, sorted: seq<Scored>, k: nat, n: nat)
    requires SortedBy(sorted, NegMonetary) && multiset(sorted) == multiset(s) && |sorted| == |s|
    requires n == Min(k, |s|)
    ensures |sorted[..n]| == Min(k, |s|)
    ensures forall i, j :: 0 <= i < j < |sorted[..n]| ==> Monetary(sorted[..n][i]) >= Monetary(sorted[..n][j])
    ensures multiset(sorted[..n]) <= multiset(s)
    ensures |s| <= k ==> multiset(sorted[..n]) == multiset(s)
    ensures sorted[..n] != [] ==> forall x :: x in multiset(s) - multiset(sorted[..n]) ==> Monetary(x) <= Monetary(sorted[..n][|sorted[..n]| - 1])
  {
    TakeOrdered(sorted, n);
    TakeRest(sorted, n);
    if |s| <= k {
      assert sorted[..n] == sorted;
    }
  }

  /** The first `n` rows keep the descending order. */
  lemma TakeOrdered(sorted: seq<Scored>, n: nat)
    requires SortedBy(sorted, NegMonetary) && n <= |sorted|
    ensures forall i, j :: 0 <= i < j < |sorted[..n]| ==> Monetary(sorted[..n][i]) >= Monetary(sorted[..n][j])
  {
    var p := sorted[..n];
    forall i, j | 0 <= i < j < |p|
      ensures Monetary(p[i]) >= Monetary(p[j])
    {
      assert p[i] == sorted[i] && p[j] == sorted[j];
      assert NegMonetary(sorted[i]) <= NegMonetary(sorted[j]);
    }
  }

  /** What the first `n` rows leave out is the rest of the sorted table, none larger than row `n - 1`. */
  lemma TakeRest(sorted: seq<Scored>, n: nat)
    requires SortedBy(sorted, NegMonetary) && n <= |sorted|
    ensures multiset(sorted) == multiset(sorted[..n]) + multiset(sorted[n..])
    ensures multiset(sorted) - multiset(sorted[..n]) == multiset(sorted[n..])
    ensures n > 0 ==> forall x :: x in multiset(sorted[n..]) ==> Monetary(x) <= Monetary(sorted[n - 1])
    ensures n > 0 ==> sorted[..n][|sorted[..n]| - 1] == sorted[n - 1]
  {
    var p, q := sorted[..n], sorted[n..];
    assert multiset(sorted) == multiset(p) + multiset(q) by {
      assert sorted == p + q;
    }
    assert multiset(sorted) - multiset(p) == multiset(q) by {
      MultisetCancel(multiset(p), multiset(q));
    }
    if n > 0 {
      RestNotLarger(sorted, n);
    }
  }

  lemma MultisetCancel(a: multiset<Scored>, b: multiset<Scored>)
    ensures (a + b) - a == b
  {
  }

  lemma RestNotLarger(sorted: seq<Scored>, n: nat)
    requires SortedBy(sorted, NegMonetary) && 0 < n <= |sorted|
    ensures forall x :: x in multiset(sorted[n..]) ==> Monetary(x) <= Monetary(sorted[n - 1])
  {
    forall x | x in multiset(sorted[n..])
      ensures Monetary(x) <= Monetary(sorted[n - 1])
    {
      var j :| 0 <= j < |sorted[n..]| && sorted[n..][j] == x;
      assert sorted[n + j] == x;
      assert NegMonetary(sorted[n - 1]) <= NegMonetary(sorted[n + j]);
    }
  }

  /** The "Top 10 Customers by Monetary Value" table. */
  function Top10(s: seq<Scored>): (top: seq<Scored>)
    ensures |top| <= 10
  {
    TopByMonetary(s, 10)
  }

  /**
   * The Monetary total of a successful segmentation is the window's total
   * payment, and so is the sum of the per-segment revenues.
   */
  lemma SegmentationMonetary(rows: seq<Orders.Row>, lo: int, hi: int)
    requires Segmentation(rows, lo, hi).Ok?
    ensures TotalMonetary(Segmentation(rows, lo, hi).value) == Orders.Revenue(Orders.Window(rows, lo, hi))
    ensures var m := SegmentRevenue(Segmentation(rows, lo, hi).value);
      Lookup(m, Loyal, 0) + Lookup(m, Potential, 0) + Lookup(m, AtRisk, 0) == Orders.Revenue(Orders.Window(rows, lo, hi))
  {
    var w := Orders.Window(rows, lo, hi);
    ScoringMonetary(Table(w));
    TableMonetary(w);
    SegmentRevenueTotal(Segmentation(rows, lo, hi).value);
  }

  lemma ScoringMonetary(t: seq<Customer>)
    requires Scoring(t).Ok?
    ensures TotalMonetary(Scoring(t).value) == SumMonetary(t)
  {
    ScoredMonetary(Scoring(t).value, t);
  }

  lemma {:induction false} ScoredMonetary(s: seq<Scored>, t: seq<Customer>)
    requires |s| == |t| && forall i :: 0 <= i < |t| ==> s[i].customer == t[i]
    ensures TotalMonetary(s) == SumMonetary(t)
  {
    if s != [] {
      ScoredMonetary(s[1..], t[1..]);
    }
  }
}
