/**
 * Quartile scores of the RFM table and the three-way segment rule:
 * R_score is qcut of Recency with labels 4,3,2,1, F_score is qcut of the
 * first-rank of Frequency with labels 1..4, M_score is qcut of Monetary
 * with labels 1..4, and `segment` reads R_score and F_score only.
 */
module Segments {

  import opened Results
  import opened Orders
  import opened Quantiles
  import opened Ranking
  import opened Rfm

  datatype Scores = Scores(r: int, f: int, m: int)

  datatype Segment = Loyal | Potential | AtRisk
  {
    /** The text `segment` returns. */
    function Name(): string
    {
      match this
      case Loyal => "Loyal"
      case Potential => "Potential"
      case AtRisk => "At Risk"
    }
  }

  /** `segment(row)`: the first rule that matches, in order. */
  function Classify(s: Scores): Segment
  {
    if s.r == 4 && s.f >= 3 then Loyal
    else if s.r >= 3 then Potential
    else AtRisk
  }

  /** A row of the scored table: the record, its three scores and its segment. */
  datatype Scored = Scored(customer: Customer, scores: Scores, segment: Segment)

  datatype Metric = Recency | Frequency | Monetary

  /** Why no scored table could be produced. */
  datatype RfmError = InsufficientData | QuantileError(metric: Metric)

  function Recencies(t: seq<Customer>): (v: seq<int>)
    ensures |v| == |t|
  {
    seq(|t|, i requires 0 <= i < |t| => t[i].recency)
  }

  function Frequencies(t: seq<Customer>): (v: seq<int>)
    ensures |v| == |t|
  {
    seq(|t|, i requires 0 <= i < |t| => t[i].frequency)
  }

  function Monetaries(t: seq<Customer>): (v: seq<int>)
    ensures |v| == |t|
  {
    seq(|t|, i requires 0 <= i < |t| => t[i].monetary)
  }

  function RCut(t: seq<Customer>): Result<seq<int>, QcutError>
  {
    Qcut(Recencies(t), Descending)
  }

  function FCut(t: seq<Customer>): Result<seq<int>, QcutError>
  {
    Qcut(FirstRanks(Frequencies(t)), Ascending)
  }

  function MCut(t: seq<Customer>): Result<seq<int>, QcutError>
  {
    Qcut(Monetaries(t), Ascending)
  }

  /**
   * The three score columns and the segment column, computed in the order
   * of the source lines; the first qcut that raises ends the computation.
   */
  function Scoring(t: seq<Customer>): (res: Result<seq<Scored>, RfmError>)
    ensures res.Ok? ==> |res.value| == |t|
    ensures res.Ok? ==> forall i :: 0 <= i < |t| ==>
      res.value[i].customer == t[i] && res.value[i].segment == Classify(res.value[i].scores)
    ensures res.Ok? ==> forall i :: 0 <= i < |t| ==>
      var s := res.value[i].scores; 1 <= s.r <= 4 && 1 <= s.f <= 4 && 1 <= s.m <= 4
  {
    var rq := RCut(t);
    if rq.Err? then Err(QuantileError(Recency))
    else
      var fq := FCut(t);
      if fq.Err? then Err(QuantileError(Frequency))
      else
        var mq := MCut(t);
        if mq.Err? then Err(QuantileError(Monetary))
        else
          Ok(seq(|t|, i requires 0 <= i < |t| =>
            var s := Scores(rq.value[i], fq.value[i], mq.value[i]);
            Scored(t[i], s, Classify(s))))
  }

  /** The segmentation of the rows in the window `lo <= timestamp <= hi`. */
  function Segmentation(rows: seq<Row>, lo: int, hi: int): Result<seq<Scored>, RfmError>
  {
    var w := Window(rows, lo, hi);
    if w == [] then Err(InsufficientData) else Scoring(Table(w))
  }

  /** The tab as the dashboard shows it: from 2017-01-01 to 2018-12-31 00:00:00. */
  function DashboardSegmentation(rows: seq<Row>): Result<seq<Scored>, RfmError>
  {
    Segmentation(rows, RFM_FROM, WINDOW_TO)
  }

  /** The segment rule, both directions for each label. */
  lemma ClassifyRules(s: Scores)
    ensures Classify(s) == Loyal <==> s.r == 4 && s.f >= 3
    ensures Classify(s) == Potential <==> s.r >= 3 && !(s.r == 4 && s.f >= 3)
    ensures Classify(s) == AtRisk <==> s.r < 3
  {
  }

  /** The segment does not depend on M_score. */
  lemma ClassifyIgnoresMonetary(r: int, f: int, m1: int, m2: int)
    ensures Classify(Scores(r, f, m1)) == Classify(Scores(r, f, m2))
  {
  }

  /** The cells of the (R_score, F_score) grid {1..4} x {1..4} that get each label. */
  function Cells(g: Segment): set<(int, int)>
  {
    set r, f | 1 <= r <= 4 && 1 <= f <= 4 && Classify(Scores(r, f, 0)) == g :: (r, f)
  }

  /**
   * Exhaustive enumeration of the score grid: 2 cells are Loyal, 6 are
   * Potential and the 8 with R_score 1 or 2 are At Risk.
   */
  lemma ClassifyGrid()
    ensures Cells(Loyal) == {(4, 3), (4, 4)}
    ensures Cells(Potential) == {(3, 1), (3, 2), (3, 3), (3, 4), (4, 1), (4, 2)}
    ensures Cells(AtRisk) == {(1, 1), (1, 2), (1, 3), (1, 4), (2, 1), (2, 2), (2, 3), (2, 4)}
  {
    assert forall p :: p in Cells(Loyal) ==> p in {(4, 3), (4, 4)};
    assert Classify(Scores(4, 3, 0)) == Loyal && Classify(Scores(4, 4, 0)) == Loyal;
    assert forall p :: p in Cells(Potential) ==> p in {(3, 1), (3, 2), (3, 3), (3, 4), (4, 1), (4, 2)};
    assert forall f :: 1 <= f <= 4 ==> (3, f) in Cells(Potential);
    assert forall f :: 1 <= f <= 2 ==> (4, f) in Cells(Potential);
    assert forall p :: p in Cells(AtRisk) ==> p in {(1, 1), (1, 2), (1, 3), (1, 4), (2, 1), (2, 2), (2, 3), (2, 4)};
    assert forall r, f :: 1 <= r <= 2 && 1 <= f <= 4 ==> (r, f) in Cells(AtRisk);
  }

  /** The names of the labels are the three texts of `segment`, all different. */
  lemma SegmentNames()
    ensures Loyal.Name() == "Loyal" && Potential.Name() == "Potential" && AtRisk.Name() == "At Risk"
    ensures forall g1: Segment, g2: Segment :: g1.Name() == g2.Name() ==> g1 == g2
  {
    assert "Loyal"[0] != "Potential"[0] && "Loyal"[0] != "At Risk"[0] && "Potential"[0] != "At Risk"[0];
  }

  /** The scores of a successful scoring are the qcut columns. */
  lemma ScoringColumns(t: seq<Customer>, i: int)
    requires Scoring(t).Ok? && 0 <= i < |t|
    ensures RCut(t).Ok? && FCut(t).Ok? && MCut(t).Ok?
    ensures Scoring(t).value[i].scores == Scores(RCut(t).value[i], FCut(t).value[i], MCut(t).value[i])
  {
  }

  /** Scoring succeeds exactly when all three qcuts do, and fails with the first that raises. */
  lemma ScoringErrors(t: seq<Customer>)
    ensures Scoring(t).Ok? <==> RCut(t).Ok? && FCut(t).Ok? && MCut(t).Ok?
    ensures Scoring(t) == Err(QuantileError(Recency)) <==> RCut(t).Err?
    ensures Scoring(t) == Err(QuantileError(Monetary)) <==> RCut(t).Ok? && FCut(t).Ok? && MCut(t).Err?
    ensures Scoring(t) != Err(InsufficientData)
  {
  }

  /**
   * The frequency qcut never raises on its own: whenever the recency qcut
   * succeeds there are at least two customers, and the first-ranks of two
   * or more values always have distinct edges.
   */
  lemma FrequencyNeverFails(t: seq<Customer>)
    ensures RCut(t).Ok? ==> |t| >= 2 && FCut(t).Ok?
    ensures Scoring(t) != Err(QuantileError(Frequency))
  {
    if RCut(t).Ok? {
      if |t| == 1 {
        QcutConstantFails(Recencies(t), Descending);
      }
      FirstRankQcutSucceeds(Frequencies(t), Ascending);
    }
  }

  /** A single customer cannot be scored: the recency edges all coincide. */
  lemma SingleCustomerFails(t: seq<Customer>)
    requires |t| == 1
    ensures Scoring(t) == Err(QuantileError(Recency))
  {
    QcutConstantFails(Recencies(t), Descending);
  }

  /** R_score never increases with Recency: more recent customers score at least as high. */
  lemma RecencyScoreMonotone(t: seq<Customer>, i: int, j: int)
    requires Scoring(t).Ok? && 0 <= i < |t| && 0 <= j < |t|
    requires t[i].recency <= t[j].recency
    ensures Scoring(t).value[i].scores.r >= Scoring(t).value[j].scores.r
  {
    ScoringColumns(t, i);
    ScoringColumns(t, j);
    QcutMonotone(Recencies(t), Descending, i, j);
  }

  /** M_score never decreases with Monetary. */
  lemma MonetaryScoreMonotone(t: seq<Customer>, i: int, j: int)
    requires Scoring(t).Ok? && 0 <= i < |t| && 0 <= j < |t|
    requires t[i].monetary <= t[j].monetary
    ensures Scoring(t).value[i].scores.m <= Scoring(t).value[j].scores.m
  {
    ScoringColumns(t, i);
    ScoringColumns(t, j);
    QcutMonotone(Monetaries(t), Ascending, i, j);
  }

  /** F_score never decreases with Frequency; between equal frequencies the earlier row scores no higher. */
  lemma FrequencyScoreMonotone(t: seq<Customer>, i: int, j: int)
    requires Scoring(t).Ok? && 0 <= i < |t| && 0 <= j < |t|
    requires t[i].frequency < t[j].frequency || (t[i].frequency == t[j].frequency && i <= j)
    ensures Scoring(t).value[i].scores.f <= Scoring(t).value[j].scores.f
  {
    ScoringColumns(t, i);
    ScoringColumns(t, j);
    FirstRankScoreMonotone(Frequencies(t), i, j);
  }

  /** The most recent customer gets R_score 4, the least recent R_score 1. */
  lemma RecencyScoreExtremes(t: seq<Customer>, i: int)
    requires Scoring(t).Ok? && 0 <= i < |t|
    ensures (forall j :: 0 <= j < |t| ==> t[i].recency <= t[j].recency) ==> Scoring(t).value[i].scores.r == 4
    ensures (forall j :: 0 <= j < |t| ==> t[j].recency <= t[i].recency) ==> Scoring(t).value[i].scores.r == 1
  {
    var v := Recencies(t);
    assert Qcut(v, Descending).Ok? && Scoring(t).value[i].scores.r == Qcut(v, Descending).value[i] by {
      ScoringColumns(t, i);
    }
    QcutExtremes(v, Descending, i);
    if forall j :: 0 <= j < |t| ==> t[i].recency <= t[j].recency {
      assert forall j :: 0 <= j < |v| ==> v[i] <= v[j];
    }
    if forall j :: 0 <= j < |t| ==> t[j].recency <= t[i].recency {
      assert forall j :: 0 <= j < |v| ==> v[j] <= v[i];
    }
  }

  /** The F_score column. */
  function FScores(s: seq<Scored>): seq<int>
  {
    seq(|s|, i requires 0 <= i < |s| => s[i].scores.f)
  }

  /**
   * F_score splits the customers into four groups of floor(n/4) or
   * ceil(n/4) customers each, none empty once there are four customers.
   */
  lemma FrequencyQuartilesBalanced(t: seq<Customer>)
    requires Scoring(t).Ok?
    ensures forall k :: 1 <= k <= 4 ==> |t| / 4 <= multiset(FScores(Scoring(t).value))[k] <= (|t| + 3) / 4
    ensures |t| >= 4 ==> forall k :: 1 <= k <= 4 ==> multiset(FScores(Scoring(t).value))[k] >= 1
  {
    FrequencyNeverFails(t);
    FirstRankQuartilesBalanced(Frequencies(t));
    var s := Scoring(t).value;
    forall i | 0 <= i < |t|
      ensures FScores(s)[i] == FCut(t).value[i]
    {
      ScoringColumns(t, i);
    }
    assert FScores(s) == FCut(t).value;
  }

  /** An empty window is reported as insufficient data, and only an empty window. */
  lemma SegmentationInsufficient(rows: seq<Row>, lo: int, hi: int)
    ensures Segmentation(rows, lo, hi) == Err(InsufficientData) <==> forall r :: r in rows ==> !InWindow(r, lo, hi)
  {
    var w := Window(rows, lo, hi);
    if forall r :: r in rows ==> !InWindow(r, lo, hi) {
      WindowEmpty(rows, lo, hi);
    } else {
      var r :| r in rows && InWindow(r, lo, hi);
      assert r in w;
      ScoringErrors(Table(w));
    }
  }

  /** A row outside the window changes nothing. */
  lemma SegmentationIgnoresOutside(a: seq<Row>, r: Row, b: seq<Row>, lo: int, hi: int)
    requires !InWindow(r, lo, hi)
    ensures Segmentation(a + [r] + b, lo, hi) == Segmentation(a + b, lo, hi)
  {
    WindowSkipsOutside(a, r, b, lo, hi);
  }

  /** Scoring keeps the customers and their order. */
  lemma ScoringCustomers(t: seq<Customer>)
    requires Scoring(t).Ok?
    ensures (set x | x in Scoring(t).value :: x.customer.id) == set c | c in t :: c.id
  {
    var s := Scoring(t).value;
    forall x | x in s
      ensures x.customer.id in (set c | c in t :: c.id)
    {
      var i :| 0 <= i < |s| && s[i] == x;
      assert t[i] in t;
    }
    forall c | c in t
      ensures c.id in (set x | x in s :: x.customer.id)
    {
      var i :| 0 <= i < |t| && t[i] == c;
      assert s[i] in s;
    }
  }

  /** The customers of the window. */
  lemma WindowCustomers(rows: seq<Row>, lo: int, hi: int)
    ensures (set r | r in Window(rows, lo, hi) :: r.customerId) == set r | r in rows && InWindow(r, lo, hi) :: r.customerId
  {
  }

  /**
   * A successful segmentation has one row per customer of the window, in
   * ascending id order, and every customer gets exactly one segment.
   */
  lemma SegmentationCustomers(rows: seq<Row>, lo: int, hi: int)
    requires Segmentation(rows, lo, hi).Ok?
    ensures var s := Segmentation(rows, lo, hi).value;
      forall i, j :: 0 <= i < j < |s| ==> s[i].customer.id < s[j].customer.id
    ensures (set x | x in Segmentation(rows, lo, hi).value :: x.customer.id)
      == set r | r in rows && InWindow(r, lo, hi) :: r.customerId
    ensures |Segmentation(rows, lo, hi).value| == |set r | r in rows && InWindow(r, lo, hi) :: r.customerId|
  {
    var w := Window(rows, lo, hi);
    TableCustomers(w);
    ScoringCustomers(Table(w));
    WindowCustomers(rows, lo, hi);
  }
}
