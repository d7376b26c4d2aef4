/**
 * `Series.rank(method='first')` and the quartiles that `qcut` cuts from it:
 * ranks 1..n in order of value, ties broken by position, so the ranks are
 * a permutation of 1..n and the quartile groups are as even as n allows.
 */
module Ranking {

  import opened Results
  import opened Quantiles

  /** Position `j` is ranked before position `i`: a smaller value, or the same value earlier. */
  predicate Precedes(v: seq<int>, j: int, i: int)
    requires 0 <= j < |v| && 0 <= i < |v|
  {
    v[j] < v[i] || (v[j] == v[i] && j < i)
  }

  /** How many of the first `n` positions are ranked before position `i`. */
  function CountPreceding(v: seq<int>, i: int, n: int): nat
    requires 0 <= i < |v| && 0 <= n <= |v|
  {
    if n == 0 then 0
    else CountPreceding(v, i, n - 1) + (if Precedes(v, n - 1, i) then 1 else 0)
  }

  function FirstRank(v: seq<int>, i: int): int
    requires 0 <= i < |v|
  {
    1 + CountPreceding(v, i, |v|)
  }

  /** The rank column, one rank per value in the order of the values. */
  function FirstRanks(v: seq<int>): (r: seq<int>)
    ensures |r| == |v|
  {
    seq(|v|, i requires 0 <= i < |v| => FirstRank(v, i))
  }

  /** 1, 2, ..., n */
  function Iota(n: nat): (r: seq<int>)
    ensures |r| == n
    ensures forall i :: 0 <= i < n ==> r[i] == i + 1
  {
    seq(n, i => i + 1)
  }

  lemma {:induction false} CountPrecedingBound(v: seq<int>, i: int, n: int)
    requires 0 <= i < |v| && 0 <= n <= |v|
    ensures CountPreceding(v, i, n) + (if i < n then 1 else 0) <= n
  {
    if n > 0 {
      CountPrecedingBound(v, i, n - 1);
    }
  }

  lemma {:induction false} CountPrecedingGap(v: seq<int>, i: int, j: int, n: int)
    requires 0 <= i < |v| && 0 <= j < |v| && 0 <= n <= |v|
    requires Precedes(v, i, j)
    ensures CountPreceding(v, i, n) + (if i < n then 1 else 0) <= CountPreceding(v, j, n)
  {
    if n > 0 {
      CountPrecedingGap(v, i, j, n - 1);
    }
  }

  /** Every rank lies in 1..n. */
  lemma RankBounds(v: seq<int>, i: int)
    requires 0 <= i < |v|
    ensures 1 <= FirstRank(v, i) <= |v|
  {
    CountPrecedingBound(v, i, |v|);
  }

  /** A smaller value, or the same value earlier in the column, gets a smaller rank. */
  lemma RankOrder(v: seq<int>, i: int, j: int)
    requires 0 <= i < |v| && 0 <= j < |v|
    requires v[i] < v[j] || (v[i] == v[j] && i < j)
    ensures FirstRank(v, i) < FirstRank(v, j)
  {
    CountPrecedingGap(v, i, j, |v|);
  }

  /** No two positions share a rank. */
  lemma RanksDistinct(v: seq<int>)
    ensures NoDup(FirstRanks(v))
    ensures forall i :: 0 <= i < |v| ==> 1 <= FirstRanks(v)[i] <= |v|
  {
    var r := FirstRanks(v);
    forall i, j | 0 <= i < j < |r|
      ensures r[i] != r[j]
    {
      if v[i] <= v[j] {
        RankOrder(v, i, j);
      } else {
        RankOrder(v, j, i);
      }
    }
    forall i | 0 <= i < |v|
      ensures 1 <= r[i] <= |v|
    {
      RankBounds(v, i);
    }
  }

  /** In a strictly increasing list, later elements exceed earlier ones by at least the distance. */
  lemma {:induction false} IncreasingGap(s: seq<int>, p: int, q: int)
    requires forall i, j :: 0 <= i < j < |s| ==> s[i] < s[j]
    requires 0 <= p <= q < |s|
    ensures s[q] - s[p] >= q - p
    decreases q - p
  {
    if p < q {
      IncreasingGap(s, p + 1, q);
    }
  }

  /** The rank column is a permutation of 1..n. */
  lemma RanksArePermutation(v: seq<int>)
    ensures SortInts(FirstRanks(v)) == Iota(|v|)
    ensures multiset(FirstRanks(v)) == multiset(Iota(|v|))
  {
    var r := FirstRanks(v);
    var s := SortInts(r);
    RanksDistinct(v);
    NoDupPermutation(r, s);
    forall p | 0 <= p < |s|
      ensures 1 <= s[p] <= |v|
    {
      var i := InSorted(s, r, s[p]);
    }
    IncreasingInRange(s);
  }

  /** n strictly increasing values in 1..n are 1, 2, ..., n. */
  lemma IncreasingInRange(s: seq<int>)
    requires Sorted(s) && NoDup(s)
    requires forall p :: 0 <= p < |s| ==> 1 <= s[p] <= |s|
    ensures s == Iota(|s|)
  {
    var n := |s|;
    assert forall i, j :: 0 <= i < j < n ==> s[i] < s[j];
    forall p | 0 <= p < n
      ensures s[p] == p + 1
    {
      IncreasingGap(s, 0, p);
      IncreasingGap(s, p, n - 1);
    }
  }

  /** The quartile edges of 1..n: four times 1 + (n-1)*k/4. */
  lemma IotaInterp(n: nat, h: int)
    requires n >= 1 && 0 <= h <= 4 * (n - 1)
    ensures Interp(Iota(n), h) == 4 + h
  {
  }

  lemma IotaEdges(n: nat)
    requires n >= 1
    ensures EdgesOf(Iota(n)) == Edges(4, 4 + (n - 1), 4 + 2 * (n - 1), 4 + 3 * (n - 1), 4 + 4 * (n - 1))
  {
    var m := n - 1;
    IotaInterp(n, 0);
    IotaInterp(n, m);
    IotaInterp(n, 2 * m);
    IotaInterp(n, 3 * m);
    IotaInterp(n, 4 * m);
  }

  /** The quartile cut over the first-rank column fails exactly when there are fewer than two values. */
  lemma FirstRankQcutSucceeds(v: seq<int>, l: Labels)
    ensures Qcut(FirstRanks(v), l).Ok? <==> |v| >= 2
  {
    var r := FirstRanks(v);
    if |v| >= 2 {
      RanksDistinct(v);
      QcutDistinctSucceeds(r, l);
    } else if |v| == 1 {
      QcutConstantFails(r, l);
    }
  }

  /** The largest rank in quartile k (k = 0..4) of 1..m+1: the count of ranks in quartiles 1..k. */
  function Threshold(m: nat, k: int): int
  {
    if k <= 0 then 0
    else if k == 1 then 1 + m / 4
    else if k == 2 then 1 + (2 * m) / 4
    else if k == 3 then 1 + (3 * m) / 4
    else m + 1
  }

  lemma ThresholdsOrdered(m: nat)
    ensures 0 == Threshold(m, 0) <= Threshold(m, 1) <= Threshold(m, 2) <= Threshold(m, 3) <= Threshold(m, 4) == m + 1
  {
  }

  /** Rank x falls in quartile k exactly when it lies between the thresholds k-1 and k. */
  lemma RankBin(m: nat, x: int, k: int)
    requires 1 <= x <= m + 1 && 1 <= k <= 4
    ensures Bin(Edges(4, 4 + m, 4 + 2 * m, 4 + 3 * m, 4 + 4 * m), x) == k <==> Threshold(m, k - 1) < x <= Threshold(m, k)
  {
  }

  /** How many of the ranks 1..j go to quartile k. */
  lemma {:induction false} IotaBinCount(m: nat, j: nat, k: int)
    requires j <= m + 1 && 1 <= k <= 4
    ensures var e := Edges(4, 4 + m, 4 + 2 * m, 4 + 3 * m, 4 + 4 * m);
      multiset(Assign(Iota(j), e, Ascending))[k]
        == (if Threshold(m, k) < j then Threshold(m, k) else j) - (if Threshold(m, k - 1) < j then Threshold(m, k - 1) else j)
  {
    var e := Edges(4, 4 + m, 4 + 2 * m, 4 + 3 * m, 4 + 4 * m);
    var lo, hi := Threshold(m, k - 1), Threshold(m, k);
    assert 0 <= lo <= hi by {
      ThresholdsOrdered(m);
    }
    if j > 0 {
      IotaBinCount(m, j - 1, k);
      var prev := Assign(Iota(j - 1), e, Ascending);
      assert Assign(Iota(j), e, Ascending) == prev + [Bin(e, j)] by {
        assert Iota(j) == Iota(j - 1) + [j];
        AssignConcat(Iota(j - 1), [j], e, Ascending);
      }
      assert Bin(e, j) == k <==> lo < j <= hi by {
        RankBin(m, j, k);
      }
      BinCountStep(prev, Bin(e, j), k, lo, hi, j);
    }
  }

  /** Appending the label of value j counts it in bin k exactly when lo < j <= hi. */
  lemma BinCountStep(prev: seq<int>, b: int, k: int, lo: int, hi: int, j: int)
    requires lo <= hi && (b == k <==> lo < j <= hi)
    requires multiset(prev)[k] == (if hi < j - 1 then hi else j - 1) - (if lo < j - 1 then lo else j - 1)
    ensures multiset(prev + [b])[k] == (if hi < j then hi else j) - (if lo < j then lo else j)
  {
    assert multiset(prev + [b]) == multiset(prev) + multiset{b};
  }

  /** Quartile sizes of 1..n, i.e. Threshold(k) - Threshold(k-1), are floor(n/4) or ceil(n/4). */
  lemma ThresholdGaps(m: nat, k: int)
    requires 1 <= k <= 4
    ensures (m + 1) / 4 <= Threshold(m, k) - Threshold(m, k - 1) <= (m + 4) / 4
  {
    var q, r := m / 4, m % 4;
    assert m == 4 * q + r;
    assert (2 * m) / 4 == 2 * q + (2 * r) / 4;
    assert (3 * m) / 4 == 3 * q + (3 * r) / 4;
  }

  /** qcut over values whose sorted order is 1..n labels them against the edges of 1..n. */
  lemma QcutOfIotaPermutation(r: seq<int>)
    requires |r| >= 2 && SortInts(r) == Iota(|r|)
    ensures Qcut(r, Ascending).Ok?
    ensures Qcut(r, Ascending).value == Assign(r, Edges(4, 4 + (|r| - 1), 4 + 2 * (|r| - 1), 4 + 3 * (|r| - 1), 4 + 4 * (|r| - 1)), Ascending)
  {
    IotaEdges(|r|);
  }

  /** The quartile cut over the first-rank column labels each rank against the edges of 1..n. */
  lemma FirstRankQcutValue(v: seq<int>)
    requires |v| >= 2
    ensures Qcut(FirstRanks(v), Ascending).Ok?
    ensures Qcut(FirstRanks(v), Ascending).value
      == Assign(FirstRanks(v), Edges(4, 4 + (|v| - 1), 4 + 2 * (|v| - 1), 4 + 3 * (|v| - 1), 4 + 4 * (|v| - 1)), Ascending)
  {
    var r := FirstRanks(v);
    RanksArePermutation(v);
    assert SortInts(r) == Iota(|r|);
    QcutOfIotaPermutation(r);
  }

  /** The scores qcut gives a permutation of 1..n occur floor(n/4) or ceil(n/4) times each. */
  lemma PermutationBinsBalanced(r: seq<int>, k: int)
    requires |r| >= 1 && multiset(r) == multiset(Iota(|r|)) && 1 <= k <= 4
    ensures var m := |r| - 1;
      var c := multiset(Assign(r, Edges(4, 4 + m, 4 + 2 * m, 4 + 3 * m, 4 + 4 * m), Ascending))[k];
      |r| / 4 <= c <= (|r| + 3) / 4
  {
    var n := |r|;
    var m := n - 1;
    var e := Edges(4, 4 + m, 4 + 2 * m, 4 + 3 * m, 4 + 4 * m);
    AssignPermutation(r, Iota(n), e, Ascending);
    IotaBinCount(m, n, k);
    ThresholdsOrdered(m);
    ThresholdGaps(m, k);
  }

  /** Qcut over any permutation of 1..n (n >= 2) gives each score floor(n/4) or ceil(n/4) times. */
  lemma PermutationQuartilesBalanced(r: seq<int>)
    requires |r| >= 2 && SortInts(r) == Iota(|r|) && multiset(r) == multiset(Iota(|r|))
    ensures Qcut(r, Ascending).Ok?
    ensures forall k :: 1 <= k <= 4 ==>
      |r| / 4 <= multiset(Qcut(r, Ascending).value)[k] <= (|r| + 3) / 4
  {
    QcutOfIotaPermutation(r);
    forall k | 1 <= k <= 4
      ensures |r| / 4 <= multiset(Qcut(r, Ascending).value)[k] <= (|r| + 3) / 4
    {
      PermutationBinsBalanced(r, k);
    }
  }

  /**
   * Quartile balance of the frequency score: qcut over the first-rank column
   * of n >= 2 values gives every score 1..4 to floor(n/4) or ceil(n/4) of
   * them, and to at least one once n >= 4.
   */
  lemma FirstRankQuartilesBalanced(v: seq<int>)
    requires |v| >= 2
    ensures Qcut(FirstRanks(v), Ascending).Ok?
    ensures forall k :: 1 <= k <= 4 ==>
      |v| / 4 <= multiset(Qcut(FirstRanks(v), Ascending).value)[k] <= (|v| + 3) / 4
    ensures |v| >= 4 ==> forall k :: 1 <= k <= 4 ==> multiset(Qcut(FirstRanks(v), Ascending).value)[k] >= 1
  {
    RanksArePermutation(v);
    PermutationQuartilesBalanced(FirstRanks(v));
  }

  /** The frequency score never decreases along the ranking order: by value, ties by position. */
  lemma FirstRankScoreMonotone(v: seq<int>, i: int, j: int)
    requires Qcut(FirstRanks(v), Ascending).Ok?
    requires 0 <= i < |v| && 0 <= j < |v|
    requires v[i] < v[j] || (v[i] == v[j] && i <= j)
    ensures Qcut(FirstRanks(v), Ascending).value[i] <= Qcut(FirstRanks(v), Ascending).value[j]
  {
    var r := FirstRanks(v);
    if i != j {
      RankOrder(v, i, j);
    }
    QcutMonotone(r, Ascending, i, j);
  }
}
