/**
 * `pd.qcut(x, 4, labels=...)` with its defaults: quartile edges by linear
 * interpolation between order statistics, an error when two edges coincide,
 * and right-closed bins whose first bin also holds the lowest edge.
 *
 * Edges are kept multiplied by four: the quartile positions (n-1)*k/4 have
 * fractional parts in {0, 1/4, 1/2, 3/4}, so four times an interpolated
 * edge of integer values is an integer and the arithmetic is exact.
 */
module Quantiles {

  import opened Results
  import opened Sorting

  function Identity(x: int): int { x }

  predicate Sorted(s: seq<int>)
  {
    forall i, j :: 0 <= i < j < |s| ==> s[i] <= s[j]
  }

  predicate NoDup(s: seq<int>)
  {
    forall i, j :: 0 <= i < j < |s| ==> s[i] != s[j]
  }

  /** The values in ascending order. */
  function SortInts(v: seq<int>): (s: seq<int>)
    ensures Sorted(s)
    ensures multiset(s) == multiset(v)
    ensures |s| == |v|
  {
    var s := SortBy(v, Identity);
    assert forall i, j :: 0 <= i < j < |s| ==> Identity(s[i]) <= Identity(s[j]);
    s
  }

  /**
   * Four times the linearly interpolated order statistic of `s` at the
   * virtual index h/4 (numpy's default "linear" quantile method).
   */
  function Interp(s: seq<int>, h: int): int
    requires |s| > 0 && 0 <= h <= 4 * (|s| - 1)
  {
    var i := h / 4;
    var f := h % 4;
    if f == 0 then 4 * s[i]
    else if f == 1 then 3 * s[i] + s[i + 1]
    else if f == 2 then 2 * s[i] + 2 * s[i + 1]
    else s[i] + 3 * s[i + 1]
  }

  /** The five quartile edges (quantiles 0, .25, .5, .75, 1), each times four. */
  datatype Edges = Edges(e0: int, e1: int, e2: int, e3: int, e4: int)

  function EdgesOf(s: seq<int>): Edges
    requires |s| > 0
  {
    var m := |s| - 1;
    Edges(Interp(s, 0), Interp(s, m), Interp(s, 2 * m), Interp(s, 3 * m), Interp(s, 4 * m))
  }

  /** The check `len(unique(bins)) == len(bins)` that qcut makes before cutting. */
  predicate Unique(e: Edges)
  {
    && e.e0 != e.e1 && e.e0 != e.e2 && e.e0 != e.e3 && e.e0 != e.e4
    && e.e1 != e.e2 && e.e1 != e.e3 && e.e1 != e.e4
    && e.e2 != e.e3 && e.e2 != e.e4
    && e.e3 != e.e4
  }

  predicate StrictlyIncreasing(e: Edges)
  {
    e.e0 < e.e1 < e.e2 < e.e3 < e.e4
  }

  /** Bin ordinal 1..4: the first edge index k >= 1 with x <= edge k (`searchsorted(side="left")`). */
  function Bin(e: Edges, x: int): int
  {
    if 4 * x <= e.e1 then 1
    else if 4 * x <= e.e2 then 2
    else if 4 * x <= e.e3 then 3
    else 4
  }

  /** `labels=[1,2,3,4]` or `labels=[4,3,2,1]`. */
  datatype Labels = Ascending | Descending

  function Label(l: Labels, b: int): int
  {
    if l == Ascending then b else 5 - b
  }

  /** The label of every value, in the order of the values. */
  function Assign(v: seq<int>, e: Edges, l: Labels): (r: seq<int>)
    ensures |r| == |v|
  {
    seq(|v|, i requires 0 <= i < |v| => Label(l, Bin(e, v[i])))
  }

  /** pandas raises `ValueError("Bin edges must be unique ...")`. */
  datatype QcutError = BinEdgesNotUnique

  /** `pd.qcut(v, 4, labels=l)`. An empty input has only NaN edges, which collapse to one. */
  function Qcut(v: seq<int>, l: Labels): (r: Result<seq<int>, QcutError>)
    ensures r.Ok? ==> |r.value| == |v|
    ensures r.Ok? ==> forall i :: 0 <= i < |v| ==> 1 <= r.value[i] <= 4
  {
    if |v| == 0 then Err(BinEdgesNotUnique)
    else
      var e := EdgesOf(SortInts(v));
      if Unique(e) then Ok(Assign(v, e, l)) else Err(BinEdgesNotUnique)
  }

  // ---------------------------------------------------------------------
  // Edges

  /** One step of the virtual index moves the edge by a quarter of the gap it lies in. */
  lemma InterpStep(s: seq<int>, h: int)
    requires |s| > 0 && 0 <= h < 4 * (|s| - 1)
    ensures h / 4 + 1 < |s|
    ensures Interp(s, h + 1) - Interp(s, h) == s[h / 4 + 1] - s[h / 4]
  {
  }

  lemma {:induction false} InterpMonotone(s: seq<int>, h1: int, h2: int)
    requires Sorted(s)
    requires |s| > 0 && 0 <= h1 <= h2 <= 4 * (|s| - 1)
    ensures Interp(s, h1) <= Interp(s, h2)
    decreases h2 - h1
  {
    if h1 < h2 {
      InterpStep(s, h1);
      InterpMonotone(s, h1 + 1, h2);
    }
  }

  lemma {:induction false} InterpStrict(s: seq<int>, h1: int, h2: int)
    requires Sorted(s) && NoDup(s)
    requires |s| > 0 && 0 <= h1 < h2 <= 4 * (|s| - 1)
    ensures Interp(s, h1) < Interp(s, h2)
    decreases h2 - h1
  {
    InterpStep(s, h1);
    if h1 + 1 < h2 {
      InterpStrict(s, h1 + 1, h2);
    }
  }

  /** The edges of sorted values run from four times the minimum to four times the maximum, never decreasing. */
  lemma EdgesOrdered(s: seq<int>)
    requires Sorted(s) && |s| > 0
    ensures EdgesOf(s).e0 == 4 * s[0] && EdgesOf(s).e4 == 4 * s[|s| - 1]
    ensures var e := EdgesOf(s); e.e0 <= e.e1 <= e.e2 <= e.e3 <= e.e4
    ensures Unique(EdgesOf(s)) <==> StrictlyIncreasing(EdgesOf(s))
  {
    var m := |s| - 1;
    InterpMonotone(s, 0, m);
    InterpMonotone(s, m, 2 * m);
    InterpMonotone(s, 2 * m, 3 * m);
    InterpMonotone(s, 3 * m, 4 * m);
  }

  /** qcut succeeds exactly when its edges are strictly increasing. */
  lemma QcutSucceedsIff(v: seq<int>, l: Labels)
    ensures Qcut(v, l).Ok? <==> |v| > 0 && StrictlyIncreasing(EdgesOf(SortInts(v)))
  {
    if |v| > 0 {
      EdgesOrdered(SortInts(v));
    }
  }

  // ---------------------------------------------------------------------
  // Permutations and duplicates

  lemma {:induction false} NoDupCount(a: seq<int>, x: int)
    requires NoDup(a)
    ensures multiset(a)[x] <= 1
  {
    if a != [] {
      assert a == [a[0]] + a[1..];
      NoDupCount(a[1..], x);
      if a[0] == x {
        assert x !in a[1..];
      }
    }
  }

  lemma DupCount(b: seq<int>, i: int, j: int)
    requires 0 <= i < j < |b| && b[i] == b[j]
    ensures multiset(b)[b[i]] >= 2
  {
    assert b == b[..i] + [b[i]] + b[i + 1..j] + [b[j]] + b[j + 1..];
  }

  /** Being free of duplicates is a property of the multiset. */
  lemma NoDupPermutation(a: seq<int>, b: seq<int>)
    requires NoDup(a) && multiset(a) == multiset(b)
    ensures NoDup(b)
  {
    forall i, j | 0 <= i < j < |b|
      ensures b[i] != b[j]
    {
      if b[i] == b[j] {
        DupCount(b, i, j);
        NoDupCount(a, b[i]);
      }
    }
  }

  lemma AssignConcat(a: seq<int>, b: seq<int>, e: Edges, l: Labels)
    ensures Assign(a + b, e, l) == Assign(a, e, l) + Assign(b, e, l)
  {
    var x, y := Assign(a + b, e, l), Assign(a, e, l) + Assign(b, e, l);
    assert |x| == |y|;
    forall i | 0 <= i < |x|
      ensures x[i] == y[i]
    {
      if i < |a| {
        assert (a + b)[i] == a[i];
      } else {
        assert (a + b)[i] == b[i - |a|];
      }
    }
  }

  /** Labelling commutes with rearranging the values: a permutation of the values permutes the labels. */
  lemma {:induction false} AssignPermutation(a: seq<int>, b: seq<int>, e: Edges, l: Labels)
    requires multiset(a) == multiset(b)
    ensures multiset(Assign(a, e, l)) == multiset(Assign(b, e, l))
    decreases |a|
  {
    assert |a| == |multiset(a)| == |multiset(b)| == |b|;
    if a != [] {
      var x := a[0];
      assert x in multiset(b);
      var j :| 0 <= j < |b| && b[j] == x;
      var rest := b[..j] + b[j + 1..];
      assert b == b[..j] + [x] + b[j + 1..];
      assert a == [x] + a[1..];
      assert multiset(a[1..]) == multiset(a) - multiset{x};
      assert multiset(rest) == multiset(b) - multiset{x};
      AssignPermutation(a[1..], rest, e, l);
      AssignConcat([x], a[1..], e, l);
      AssignConcat(b[..j] + [x], b[j + 1..], e, l);
      AssignConcat(b[..j], [x], e, l);
      AssignConcat(b[..j], b[j + 1..], e, l);
    }
  }

  /** A multiset has exactly one sorted arrangement. */
  lemma {:induction false} SortedUnique(a: seq<int>, b: seq<int>)
    requires Sorted(a) && Sorted(b) && multiset(a) == multiset(b)
    ensures a == b
  {
    assert |a| == |b| by {
      assert |a| == |multiset(a)| && |b| == |multiset(b)|;
    }
    if a != [] {
      assert a[0] == b[0] by {
        var k := InSorted(a, b, a[0]);
        var m := InSorted(b, a, b[0]);
        assert b[0] <= b[k] && a[0] <= a[m];
      }
      assert multiset(a[1..]) == multiset(b[1..]) by {
        TailMultiset(a);
        TailMultiset(b);
      }
      SortedUnique(a[1..], b[1..]);
      assert a == [a[0]] + a[1..] && b == [b[0]] + b[1..];
    }
  }

  lemma TailMultiset(a: seq<int>)
    requires a != []
    ensures multiset(a[1..]) == multiset(a) - multiset{a[0]}
  {
    assert a == [a[0]] + a[1..];
  }

  /** The edges of two and of three sorted values, written out. */
  lemma EdgesOfTwo(s: seq<int>)
    requires |s| == 2
    ensures EdgesOf(s) == Edges(4 * s[0], 3 * s[0] + s[1], 2 * s[0] + 2 * s[1], s[0] + 3 * s[1], 4 * s[1])
  {
  }

  lemma EdgesOfThree(s: seq<int>)
    requires |s| == 3
    ensures EdgesOf(s) == Edges(4 * s[0], 2 * s[0] + 2 * s[1], 4 * s[1], 2 * s[1] + 2 * s[2], 4 * s[2])
  {
  }

  // ---------------------------------------------------------------------
  // What qcut promises

  /** Larger values never get a lower ordinal; the labels keep or reverse that order. */
  lemma QcutMonotone(v: seq<int>, l: Labels, i: int, j: int)
    requires Qcut(v, l).Ok?
    requires 0 <= i < |v| && 0 <= j < |v| && v[i] <= v[j]
    ensures l == Ascending ==> Qcut(v, l).value[i] <= Qcut(v, l).value[j]
    ensures l == Descending ==> Qcut(v, l).value[i] >= Qcut(v, l).value[j]
  {
  }

  /** The smallest value lands in the first bin and the largest in the last. */
  lemma QcutExtremes(v: seq<int>, l: Labels, i: int)
    requires Qcut(v, l).Ok?
    requires 0 <= i < |v|
    ensures (forall j :: 0 <= j < |v| ==> v[i] <= v[j]) ==> Qcut(v, l).value[i] == Label(l, 1)
    ensures (forall j :: 0 <= j < |v| ==> v[j] <= v[i]) ==> Qcut(v, l).value[i] == Label(l, 4)
  {
    var s := SortInts(v);
    var e := EdgesOf(s);
    EdgesOrdered(s);
    assert Unique(e) && Qcut(v, l).value[i] == Label(l, Bin(e, v[i]));
    EndBins(e, s[0], s[|s| - 1]);
    if forall j :: 0 <= j < |v| ==> v[i] <= v[j] {
      SmallestIsFirst(v, i);
    }
    if forall j :: 0 <= j < |v| ==> v[j] <= v[i] {
      LargestIsLast(v, i);
    }
  }

  /** With distinct edges, the lowest one falls in bin 1 and the highest in bin 4. */
  lemma EndBins(e: Edges, lo: int, hi: int)
    requires e.e0 <= e.e1 <= e.e2 <= e.e3 <= e.e4 && Unique(e)
    requires e.e0 == 4 * lo && e.e4 == 4 * hi
    ensures Bin(e, lo) == 1 && Bin(e, hi) == 4
  {
  }

  lemma SmallestIsFirst(v: seq<int>, i: int)
    requires 0 <= i < |v| && forall j :: 0 <= j < |v| ==> v[i] <= v[j]
    ensures v[i] == SortInts(v)[0]
  {
    var s := SortInts(v);
    var k := InSorted(v, s, v[i]);
    var j := InSorted(s, v, s[0]);
    assert v[i] <= v[j] && s[0] <= s[k];
  }

  lemma LargestIsLast(v: seq<int>, i: int)
    requires 0 <= i < |v| && forall j :: 0 <= j < |v| ==> v[j] <= v[i]
    ensures v[i] == SortInts(v)[|v| - 1]
  {
    var s := SortInts(v);
    var n := |s| - 1;
    var k := InSorted(v, s, v[i]);
    var j := InSorted(s, v, s[n]);
    assert v[j] <= v[i] && s[k] <= s[n];
  }

  /** A value of one list is found at some index of any permutation of it. */
  lemma InSorted(a: seq<int>, b: seq<int>, x: int) returns (k: int)
    requires multiset(a) == multiset(b) && x in a
    ensures 0 <= k < |b| && b[k] == x
  {
    assert x in multiset(a);
    assert x in multiset(b);
    k :| 0 <= k < |b| && b[k] == x;
  }

  /** Strictly increasing values have strictly increasing edges once there are two of them. */
  lemma EdgesStrict(s: seq<int>)
    requires |s| >= 2 && Sorted(s) && NoDup(s)
    ensures StrictlyIncreasing(EdgesOf(s))
  {
    var m := |s| - 1;
    InterpStrict(s, 0, m);
    InterpStrict(s, m, 2 * m);
    InterpStrict(s, 2 * m, 3 * m);
    InterpStrict(s, 3 * m, 4 * m);
  }

  /** Two or more pairwise distinct values always have distinct edges. */
  lemma QcutDistinctSucceeds(v: seq<int>, l: Labels)
    requires |v| >= 2 && NoDup(v)
    ensures Qcut(v, l).Ok?
  {
    var s := SortInts(v);
    NoDupPermutation(v, s);
    EdgesStrict(s);
    var e := EdgesOf(s);
    assert Unique(e);
  }

  /** Values that are all the same have a single edge repeated five times. */
  lemma QcutConstantFails(v: seq<int>, l: Labels)
    requires forall i :: 0 <= i < |v| ==> v[i] == v[0]
    ensures Qcut(v, l).Err?
  {
    if |v| > 0 {
      var s := SortInts(v);
      assert s[0] in multiset(v) && s[|s| - 1] in multiset(v);
      EdgesOrdered(s);
    }
  }

  /** Sorting three distinct values. */
  lemma SortThree(v: seq<int>, a: int, b: int, c: int)
    requires a <= b <= c && multiset(v) == multiset([a, b, c])
    ensures SortInts(v) == [a, b, c]
  {
    var w := [a, b, c];
    assert Sorted(w) by {
      assert forall i, j :: 0 <= i < j < 3 ==> w[i] <= w[j];
    }
    SortedUnique(SortInts(v), w);
  }

  /**
   * Three distinct values: the smallest gets the first label, the middle
   * one the second, the largest the fourth; the third bin stays empty.
   */
  lemma ThreeDistinctScores(v: seq<int>, l: Labels, a: int, b: int, c: int)
    requires a < b < c && multiset(v) == multiset([a, b, c])
    ensures Qcut(v, l).Ok?
    ensures forall i :: 0 <= i < |v| && v[i] == a ==> Qcut(v, l).value[i] == Label(l, 1)
    ensures forall i :: 0 <= i < |v| && v[i] == b ==> Qcut(v, l).value[i] == Label(l, 2)
    ensures forall i :: 0 <= i < |v| && v[i] == c ==> Qcut(v, l).value[i] == Label(l, 4)
  {
    SortThree(v, a, b, c);
    var e := EdgesOf([a, b, c]);
    EdgesOfThree([a, b, c]);
    assert Bin(e, a) == 1 && Bin(e, b) == 2 && Bin(e, c) == 4;
  }

  /** Two or three values: qcut succeeds exactly when they are all different. */
  lemma QcutSmallIff(v: seq<int>, l: Labels)
    requires 2 <= |v| <= 3
    ensures Qcut(v, l).Ok? <==> NoDup(v)
  {
    if NoDup(v) {
      QcutDistinctSucceeds(v, l);
    } else {
      var s := SortInts(v);
      if NoDup(s) {
        NoDupPermutation(s, v);
      }
      var i, j :| 0 <= i < j < |s| && s[i] == s[j];
      if |s| == 2 {
        EdgesOfTwo(s);
      } else {
        EdgesOfThree(s);
        assert s[0] == s[1] || s[1] == s[2];
      }
    }
  }
}
