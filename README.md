# E-commerce dashboard: monthly trend and RFM segmentation

This project is a Dafny model of the two analytical pipelines in the
Streamlit dashboard `dashboard/dashboard.py`. Everything else in the script
is page layout and charts.

- **Sales trend tab.** It keeps the order rows purchased between 2016-01-01
  and 2018-12-31, groups them by calendar month and reports, for each month,
  the number of distinct orders and the sum of payments. It also reports the
  window's distinct-order count and total revenue.
- **Customer segmentation tab.** It keeps the rows purchased between
  2017-01-01 and 2018-12-31 and sets the snapshot to the latest purchase plus
  one day. It builds one RFM record per customer:
  - Recency: whole days from the customer's last purchase to the snapshot.
  - Frequency: distinct orders.
  - Monetary: payment sum.

  Each metric is then scored:
  - `R_score` is the quartile bin of Recency, labelled 4..1.
  - `F_score` is the quartile bin of the first-rank of Frequency, labelled 1..4.
  - `M_score` is the quartile bin of Monetary, labelled 1..4.

  Each customer is classified Loyal, Potential or At Risk. The tab then
  shows the customer count per segment, the Monetary sum per segment and the
  ten customers with the largest Monetary.

One input row is one payment line of an order, already parsed:
`Row(orderId, customerId, timestamp, payment)`.
- Timestamps are whole seconds since 1970-01-01 00:00:00, with no time zone.
- Payments are whole cents.
- Ids are integers.

Both window bounds are compared against the full instant. So the upper
bound, the string `"2018-12-31"`, is the instant 2018-12-31 00:00:00
(`Orders.WINDOW_TO`), and purchases later that day fall outside the window.

Modules:
- `Results`: the `Result` type.
- `Orders`: rows, window filter, revenue, order ids.
- `Grouping`: groupby with sorted keys, plus its sum and distinct-count laws.
- `Calendar`: monthly periods and their `"YYYY-MM"` labels.
- `Trend`: the trend tab.
- `Sorting`: a stable insertion sort by key.
- `Quantiles`: `pd.qcut(v, 4, labels=...)` in exact integer arithmetic.
- `Ranking`: `rank(method='first')` and the balance of its quartiles.
- `Rfm`: snapshot and RFM table.
- `Segments`: scores and the `segment` rule.
- `Views`: value counts, revenue per segment, top 10.
- `Scenarios`: worked three-customer examples.

How `qcut` is modelled:
- The values are sorted.
- The five quartile edges are found by linear interpolation at virtual index
  (n-1)·k/4. Every edge is kept multiplied by 4, so the arithmetic is exact.
- If two edges coincide, the result is `Err(BinEdgesNotUnique)`. This is the
  pandas default `duplicates='raise'`. An empty column also gives the error,
  because its NaN edges collapse into one.
- Otherwise every value gets the first bin whose upper edge it does not
  exceed. The bins are right-closed, and the lowest edge is included in bin 1.

## Model

| member | source | states |
|---|---|---|
| Orders.Revenue | dashboard/dashboard.py:63 | `payment_value.sum()`: 0 for no rows; additive over concatenation (Orders.RevenueConcat); split per month by Trend.TrendRevenueCoverage and per customer by Rfm.TableMonetary |
| Orders.OrderIds | dashboard/dashboard.py:62 | the order-id set whose size is `nunique`; a union over concatenation (Orders.OrderIdsConcat); its size is the total of Trend.TrendOrderCoverage |
| Orders.Window | dashboard/dashboard.py:47-50 | a row is selected iff `lo <= timestamp <= hi`; the selection is no longer than its input |
| Orders.WindowSkipsOutside | dashboard/dashboard.py:100-103 | a row outside the window can be removed from anywhere in the input without changing the selection |
| Orders.WindowConcat | dashboard/dashboard.py:47-50 | the filter distributes over concatenation of the input |
| Orders.WindowEmpty | dashboard/dashboard.py:47-50 | when no row lies in the window the selection is empty |
| Orders.WindowIdempotent | dashboard/dashboard.py:100-103 | filtering twice with the same bounds equals filtering once |
| Orders.RevenueConcat | dashboard/dashboard.py:63 | the payment sum of two row lists together is the sum of their payment sums |
| Orders.OrderIdsConcat | dashboard/dashboard.py:62 | the order ids of two row lists together are the union of their order ids |
| Grouping.Group | dashboard/dashboard.py:54 | a group holds exactly the rows with that key |
| Grouping.GroupConcat | dashboard/dashboard.py:54 | grouping distributes over concatenation of the rows |
| Grouping.SelectIn | dashboard/dashboard.py:54 | a row is selected iff its key is one of the given keys |
| Grouping.InsertKey | dashboard/dashboard.py:54 | adding a key to a strictly ascending key list keeps it strictly ascending, with exactly the old keys plus the new one |
| Grouping.SortedKeys | dashboard/dashboard.py:54-57 | groupby's keys: strictly ascending, exactly the keys present, as many as there are distinct keys |
| Grouping.IncreasingCard | dashboard/dashboard.py:54 | a strictly ascending key list is as long as its set of keys, so groupby has one group per distinct key |
| Grouping.SelectAll | dashboard/dashboard.py:54-57 | selecting every present key selects all rows, in order |
| Grouping.SelectSplitRevenue | dashboard/dashboard.py:56 | for a key not among the others, the revenue of its group plus the others' equals the revenue of selecting them all |
| Grouping.SelectSplitOrders | dashboard/dashboard.py:55 | the order ids selected by `k` and then `ks` are the union of the group's and the rest's |
| Grouping.GroupRevenuesSelect | dashboard/dashboard.py:56 | the per-group revenues of distinct keys add up to the revenue of the rows having those keys |
| Grouping.GroupOrderCountsSelect | dashboard/dashboard.py:55 | per-group distinct-order counts add up to at least the distinct-order count of the selected rows |
| Grouping.GroupOrderCountsSelectExact | dashboard/dashboard.py:55 | per-group distinct-order counts add up exactly when no order id occurs under two keys |
| Grouping.OrdersDisjoint | dashboard/dashboard.py:55 | when no order spans two keys, one group's orders and the other keys' orders are disjoint |
| Grouping.GroupRevenuesTotal | dashboard/dashboard.py:56 | over all present keys, the group revenues add up to the revenue of all rows |
| Grouping.GroupOrderCountsTotal | dashboard/dashboard.py:55 | over all present keys, the distinct-order count of all rows is at most the sum of the group counts, with equality when no order spans two keys |
| Calendar.MonthKey | dashboard/dashboard.py:52 | `to_period("M")` by the civil calendar; pinned on concrete instants by Calendar.MidJune2018, TrendFromMonth, RfmFromMonth, WindowToMonth, EndOfFebruary2018 and StartOfMarch2018 (no general lemma, see Left out) |
| Calendar.KeyRoundTrip | dashboard/dashboard.py:52 | the monthly key `year*12 + month-1` gives back its year and month |
| Calendar.FourDigits | dashboard/dashboard.py:59 | the four zero-padded digits of a year read back as that year |
| Calendar.TwoDigits | dashboard/dashboard.py:59 | the two zero-padded digits of a month read back as that month |
| Calendar.DigitDigitValue | dashboard/dashboard.py:59 | a digit character reads back as its value |
| Calendar.Label | dashboard/dashboard.py:59 | a period label has seven characters and a dash at position 4 |
| Calendar.LabelRoundTrip | dashboard/dashboard.py:59 | reading a label back gives its monthly key, so distinct months get distinct labels |
| Calendar.June2018Label | dashboard/dashboard.py:59 | June 2018 is labelled "2018-06" |
| Calendar.MidJune2018 | dashboard/dashboard.py:52 | 2018-06-15 00:00:00 falls in period 2018-06 |
| Calendar.TrendFromMonth | dashboard/dashboard.py:48 | the trend tab's lower bound falls in 2016-01 |
| Calendar.RfmFromMonth | dashboard/dashboard.py:101 | the RFM tab's lower bound falls in 2017-01 |
| Calendar.WindowToMonth | dashboard/dashboard.py:49 | the upper bound of both tabs falls in 2018-12 |
| Calendar.EndOfFebruary2018 | dashboard/dashboard.py:52 | 2018-02-28 23:59:59 falls in period 2018-02 |
| Calendar.StartOfMarch2018 | dashboard/dashboard.py:52 | 2018-03-01 00:00:00 falls in period 2018-03 |
| Trend.Monthly | dashboard/dashboard.py:54-57 | `groupby('year_month').agg(...)`: one bucket per month present, ascending; characterised by Trend.TrendMonths, Trend.TrendBuckets and Trend.BucketRevenues |
| Trend.Trend | dashboard/dashboard.py:47-63 | the trend tab: monthly table and the two totals over the window; characterised by Trend.TrendMonths, TrendBuckets, TrendRevenueCoverage, TrendOrderCoverage, TrendEmpty, TrendIgnoresOutside and TrendOfWindow |
| Trend.Buckets | dashboard/dashboard.py:54-57 | one bucket per given month, in order, with the number of distinct order ids of the rows dated in that month and the payment sum of that month's group |
| Trend.MonthOrderIds | dashboard/dashboard.py:55 | a month group's order ids are those of the rows dated in that month |
| Trend.MonthLabels | dashboard/dashboard.py:59 | one label per bucket, and each label reads back as its bucket's month |
| Trend.BucketRevenues | dashboard/dashboard.py:56 | each bucket's revenue is its month's payment sum, and the bucket revenues add up to the groups' revenues |
| Trend.BucketOrders | dashboard/dashboard.py:55 | the bucket order counts add up to the groups' distinct-order counts |
| Trend.BucketMonths | dashboard/dashboard.py:54 | the buckets cover exactly the given months |
| Trend.WindowMonths | dashboard/dashboard.py:52 | the months present in the window are those of the in-window rows |
| Trend.TrendMonths | dashboard/dashboard.py:52-57 | the monthly table's months are strictly ascending, and a month appears iff some in-window row falls in it |
| Trend.WindowMonthOrders | dashboard/dashboard.py:55 | the windowed rows of a month have exactly the order ids of that month's in-window rows |
| Trend.TrendBuckets | dashboard/dashboard.py:54-57 | each bucket counts the distinct order ids of its month's in-window rows and sums their payments, installments included |
| Trend.TrendRevenueCoverage | dashboard/dashboard.py:56-63 | total revenue equals the sum of the monthly revenues |
| Trend.TrendOrderCoverage | dashboard/dashboard.py:55-62 | total orders is the number of distinct in-window order ids; it is at most the sum of the monthly counts, and equal to it when each order has one timestamp |
| Trend.TrendEmpty | dashboard/dashboard.py:47-63 | an empty window gives no buckets and zero totals |
| Trend.TrendIgnoresOutside | dashboard/dashboard.py:47-50 | a row outside the window changes neither table nor totals |
| Trend.TrendOfWindow | dashboard/dashboard.py:47-50 | running the tab on pre-filtered rows changes nothing |
| Trend.SingleOrderJune2018 | dashboard/dashboard.py:47-63 | one 100.00 order on 2018-06-15 gives one bucket "2018-06" with 1 order and 10000 cents, and the same totals |
| Sorting.Insert | dashboard/dashboard.py:156 | inserting into a sorted list keeps it sorted and adds exactly that element |
| Sorting.SortBy | dashboard/dashboard.py:156 | the sort result is ordered by the key and a permutation of its input |
| Quantiles.EdgesOf | dashboard/dashboard.py:115-117 | the five quartile edges (times 4) of sorted values; characterised by Quantiles.EdgesOrdered, EdgesStrict, EdgesOfTwo, EdgesOfThree and Ranking.IotaEdges |
| Quantiles.Bin | dashboard/dashboard.py:115-117 | the right-closed bin 1..4 of a value; characterised by Quantiles.EndBins, Quantiles.QcutMonotone and Ranking.RankBin |
| Quantiles.SortInts | dashboard/dashboard.py:115-117 | qcut's sorted values: ordered and a permutation of the column |
| Quantiles.Qcut | dashboard/dashboard.py:115-117 | on success, one label per value, each in 1..4 |
| Quantiles.QcutSucceedsIff | dashboard/dashboard.py:115-117 | qcut succeeds iff the column is non-empty and its edges strictly increase (no duplicate edges) |
| Quantiles.InterpMonotone | dashboard/dashboard.py:115-117 | on sorted values, interpolated quantiles never decrease in the quantile |
| Quantiles.InterpStrict | dashboard/dashboard.py:115-117 | on sorted distinct values, interpolated quantiles strictly increase |
| Quantiles.EdgesOrdered | dashboard/dashboard.py:115-117 | the edges run from the minimum to the maximum, never decreasing, and they are unique iff strictly increasing |
| Quantiles.AssignPermutation | dashboard/dashboard.py:115-117 | permuting the values permutes their labels |
| Quantiles.SortedUnique | dashboard/dashboard.py:115-117 | two sorted arrangements of one multiset are equal |
| Quantiles.NoDupPermutation | dashboard/dashboard.py:115-117 | being free of duplicates survives permutation |
| Quantiles.QcutMonotone | dashboard/dashboard.py:115-117 | a larger value never gets a lower bin: the label never decreases with labels 1..4 and never increases with labels 4..1 |
| Quantiles.QcutExtremes | dashboard/dashboard.py:115-117 | the smallest value gets the first label and the largest the last |
| Quantiles.EdgesStrict | dashboard/dashboard.py:115-117 | two or more sorted distinct values have strictly increasing edges |
| Quantiles.QcutDistinctSucceeds | dashboard/dashboard.py:115-117 | two or more pairwise distinct values never raise |
| Quantiles.QcutConstantFails | dashboard/dashboard.py:115-117 | a constant column, including one of a single value, raises the duplicate-edge error |
| Quantiles.ThreeDistinctScores | dashboard/dashboard.py:115-117 | three distinct values get labels 1, 2 and 4 from smallest to largest |
| Quantiles.QcutSmallIff | dashboard/dashboard.py:115-117 | two or three values: qcut succeeds iff they are pairwise distinct |
| Ranking.FirstRanks | dashboard/dashboard.py:116 | one rank per value, in column order |
| Ranking.Iota | dashboard/dashboard.py:116 | the list 1..n: length n, position i holding i + 1 |
| Ranking.RankBounds | dashboard/dashboard.py:116 | every rank lies in 1..n |
| Ranking.RankOrder | dashboard/dashboard.py:116 | a smaller value, or an equal value earlier in the column, gets a smaller rank |
| Ranking.RanksDistinct | dashboard/dashboard.py:116 | no two customers share a rank, and every rank is in 1..n |
| Ranking.RanksArePermutation | dashboard/dashboard.py:116 | the rank column is a permutation of 1..n |
| Ranking.IotaEdges | dashboard/dashboard.py:116 | the quartile edges of 1..n are 1 + (n-1)k/4 |
| Ranking.FirstRankQcutSucceeds | dashboard/dashboard.py:116 | qcut over the rank column succeeds iff there are at least two customers |
| Ranking.RankBin | dashboard/dashboard.py:116 | rank x falls in quartile k iff it lies between thresholds k-1 and k |
| Ranking.ThresholdGaps | dashboard/dashboard.py:116 | the quartiles of 1..n hold floor(n/4) to ceil(n/4) ranks each |
| Ranking.FirstRankQuartilesBalanced | dashboard/dashboard.py:116 | each F quartile holds floor(n/4) to ceil(n/4) customers, and none is empty once n >= 4 |
| Ranking.FirstRankScoreMonotone | dashboard/dashboard.py:116 | the F label never decreases along the ranking order (by value, ties by position) |
| Rfm.Snapshot | dashboard/dashboard.py:105 | latest purchase plus one day; characterised by Rfm.SnapshotIsMaxPlusDay |
| Rfm.Table | dashboard/dashboard.py:107-113 | the RFM table; characterised by Rfm.TableCustomers, Rfm.TableRecord and Rfm.TableMonetary |
| Rfm.LastPurchase | dashboard/dashboard.py:105-108 | the latest timestamp: attained by some row and not exceeded by any |
| Rfm.Days | dashboard/dashboard.py:108 | `Timedelta.days`: the whole days of a duration, rounded down |
| Rfm.SnapshotIsMaxPlusDay | dashboard/dashboard.py:105 | the snapshot is some row's timestamp plus one day, and is at least a day after every row |
| Rfm.CustomerRecord | dashboard/dashboard.py:107-111 | the record built for customer `c` carries id `c` |
| Rfm.RecordMonetary | dashboard/dashboard.py:110 | Monetary is the sum of every payment row of the customer, installments included, added up over the whole window |
| Rfm.RecordFrequency | dashboard/dashboard.py:109 | Frequency is the number of distinct order ids of the customer's rows, at least 1 |
| Rfm.RecordRecency | dashboard/dashboard.py:108 | Recency is the floor, in days, of snapshot minus the customer's latest timestamp, and is at least 1 when the snapshot is a day past every purchase |
| Rfm.Records | dashboard/dashboard.py:107-111 | one record per requested customer, in order, with matching ids |
| Rfm.TableCustomers | dashboard/dashboard.py:107-130 | the table has exactly one record per distinct customer in the window, with ids strictly ascending |
| Rfm.TableRecord | dashboard/dashboard.py:108-110 | every record has Recency >= 1 and Frequency >= 1; Frequency is the customer's distinct-order count and Monetary the sum of the customer's payment rows |
| Rfm.RecordsMonetary | dashboard/dashboard.py:110 | the records' Monetary values add up to the groups' revenues |
| Rfm.TableMonetary | dashboard/dashboard.py:110 | the Monetary column adds up to the window's total payment |
| Segments.Classify | dashboard/dashboard.py:119-125 | `segment(row)`; characterised by Segments.ClassifyRules, ClassifyGrid and ClassifyIgnoresMonetary |
| Segments.Segmentation | dashboard/dashboard.py:100-127 | the segmentation tab over a window; characterised by Segments.SegmentationInsufficient, SegmentationCustomers, SegmentationIgnoresOutside, ScoringErrors and Views.SegmentationMonetary |
| Segments.Scoring | dashboard/dashboard.py:115-127 | on success, one scored row per record, in order, every score in 1..4, segment from the rule |
| Segments.ClassifyRules | dashboard/dashboard.py:119-125 | Loyal iff R=4 and F>=3; Potential iff R>=3 and not Loyal; At Risk iff R<3 |
| Segments.ClassifyIgnoresMonetary | dashboard/dashboard.py:119-125 | the segment does not depend on M_score |
| Segments.ClassifyGrid | dashboard/dashboard.py:119-125 | of the 16 (R, F) cells in 1..4 x 1..4, 2 are Loyal, 6 Potential and 8 At Risk, listed cell by cell |
| Segments.SegmentNames | dashboard/dashboard.py:121-125 | the three labels are the texts "Loyal", "Potential" and "At Risk", and no two share a text |
| Segments.ScoringErrors | dashboard/dashboard.py:115-117 | scoring succeeds iff all three qcuts do; it fails with the recency error iff R's qcut raises, and with the Monetary error iff only M's does |
| Segments.FrequencyNeverFails | dashboard/dashboard.py:115-116 | the rank-based F qcut never raises once R's qcut has succeeded |
| Segments.SingleCustomerFails | dashboard/dashboard.py:115 | a single customer cannot be scored: R's edges coincide |
| Segments.RecencyScoreMonotone | dashboard/dashboard.py:115 | R_score never increases with Recency |
| Segments.FrequencyScoreMonotone | dashboard/dashboard.py:116 | F_score never decreases with Frequency, and among equal frequencies the earlier row scores no higher |
| Segments.MonetaryScoreMonotone | dashboard/dashboard.py:117 | M_score never decreases with Monetary |
| Segments.RecencyScoreExtremes | dashboard/dashboard.py:115 | the most recent customer gets R_score 4 and the least recent R_score 1 |
| Segments.FrequencyQuartilesBalanced | dashboard/dashboard.py:116 | F_score groups have floor(n/4) to ceil(n/4) customers, and none is empty once n >= 4 |
| Segments.SegmentationInsufficient | dashboard/dashboard.py:100-105 | the insufficient-data error occurs iff no row lies in the window |
| Segments.SegmentationIgnoresOutside | dashboard/dashboard.py:100-103 | a row outside the window changes nothing in the result |
| Segments.ScoringCustomers | dashboard/dashboard.py:127 | scoring keeps exactly the customers of the table |
| Segments.WindowCustomers | dashboard/dashboard.py:100-103 | the window's customers are those of the in-window rows |
| Segments.SegmentationCustomers | dashboard/dashboard.py:107-130 | a successful segmentation has one row per in-window customer, ids ascending, each with exactly one segment |
| Views.CountPresent | dashboard/dashboard.py:138 | a segment's count is positive iff the segment occurs |
| Views.SegmentCounts | dashboard/dashboard.py:138 | `value_counts`: an entry exactly for each occurring segment, each at least 1 |
| Views.SegmentRevenue | dashboard/dashboard.py:148 | per-segment Monetary sums, an entry exactly for each occurring segment |
| Views.CountsPartition | dashboard/dashboard.py:138 | the three segment counts add up to the number of customers |
| Views.MonetaryPartition | dashboard/dashboard.py:148 | the three segment Monetary sums add up to the Monetary total |
| Views.SegmentCountsTotal | dashboard/dashboard.py:138 | the value counts add up to the number of customers, so the segments partition them |
| Views.SegmentRevenueTotal | dashboard/dashboard.py:148 | the per-segment revenues add up to the Monetary total |
| Views.AbsentMonetary | dashboard/dashboard.py:148 | a segment that does not occur contributes 0 |
| Views.TopByMonetary | dashboard/dashboard.py:156 | the first min(k, n) rows by Monetary, descending; a sub-multiset of the table, the whole table when n <= k; no row left out has a larger Monetary than the last row kept |
| Views.TakeSorted | dashboard/dashboard.py:156 | the prefix of a descending-sorted permutation has every property of the top-k |
| Views.TakeOrdered | dashboard/dashboard.py:156 | a prefix of a descending-sorted table is still descending |
| Views.TakeRest | dashboard/dashboard.py:156 | the rows a prefix leaves out are the rest of the sorted table, none larger than the prefix's last row |
| Views.RestNotLarger | dashboard/dashboard.py:156 | every row behind position n-1 has Monetary no larger than row n-1 |
| Views.Top10 | dashboard/dashboard.py:156 | the top-10 table has at most 10 rows |
| Views.SegmentationMonetary | dashboard/dashboard.py:110-148 | the scored table's Monetary total equals the window's total payment, and so does the sum of the per-segment revenues |
| Views.ScoringMonetary | dashboard/dashboard.py:110-127 | scoring keeps the Monetary total |
| Views.ScoredMonetary | dashboard/dashboard.py:127 | rows carrying the same customers carry the same Monetary total |
| Scenarios.JanuaryWindow | dashboard/dashboard.py:100-103 | all five January 2018 rows lie in the RFM window |
| Scenarios.JanuaryLastPurchase | dashboard/dashboard.py:105 | the latest January purchase is on 2018-01-20 |
| Scenarios.JanuarySnapshot | dashboard/dashboard.py:105 | the snapshot is 2018-01-21 00:00:00 |
| Scenarios.JanuaryKeys | dashboard/dashboard.py:107 | the customers, in ascending id order, are 1, 2 and 3 |
| Scenarios.FirstCustomer | dashboard/dashboard.py:107-111 | customer 1: Recency 18, Frequency 3, Monetary 20000 |
| Scenarios.SecondCustomer | dashboard/dashboard.py:107-111 | customer 2: Recency 11, Frequency 1, Monetary 20000 |
| Scenarios.ThirdCustomer | dashboard/dashboard.py:107-111 | customer 3: Recency 1, Frequency 1, Monetary 1000 |
| Scenarios.JanuaryTable | dashboard/dashboard.py:107-113 | the RFM table of the January rows, record by record |
| Scenarios.TiedCuts | dashboard/dashboard.py:115-117 | on that table R and F cut, but M raises because two customers tie on Monetary |
| Scenarios.TiedSpendingFails | dashboard/dashboard.py:100-117 | the January rows end in the Monetary quantile error |
| Scenarios.DistinctRanks | dashboard/dashboard.py:116 | the first-ranks of frequencies 3, 1, 1 are 3, 1, 2 |
| Scenarios.CutOfThree | dashboard/dashboard.py:115-117 | three distinct values cut into the labels of bins 1, 2 and 4 |
| Scenarios.DistinctRecencyCut | dashboard/dashboard.py:115 | Recency 18, 11, 1 gets R_score 1, 3, 4 |
| Scenarios.DistinctFrequencyCut | dashboard/dashboard.py:116 | Frequency 3, 1, 1 gets F_score 4, 1, 2 |
| Scenarios.DistinctMonetaryCut | dashboard/dashboard.py:117 | Monetary 20000, 15000, 1000 gets M_score 4, 2, 1 |
| Scenarios.DistinctSpendingSucceeds | dashboard/dashboard.py:115-127 | with distinct spending, three customers are scored: (1,4,4) At Risk, (3,1,2) Potential, (4,2,1) Potential |

## Left out

- Streamlit page setup, tabs, columns, text, metric cards and `st.dataframe`
  (dashboard/dashboard.py:8, 24-40, 65-67, 131-157): these are display only.
  This includes the choice of columns shown for the top 10 at line 157.
- matplotlib charts and tick formatting (dashboard/dashboard.py:71-87,
  140-153): these are rendering.
- CSV loading, `@st.cache_data` and `pd.to_datetime` (dashboard/dashboard.py:13-19):
  these are I/O and a foreign parser. The model takes the rows as
  already-parsed integers, and a row with an unparseable value is not
  representable.
- Floating point. Payments are integer cents, so all sums are exact. qcut's
  edges are exact rationals, scaled by 4, so the model does not reproduce
  the float rounding pandas applies to edges.
- Sub-second timestamps. Timestamps are whole seconds.
- Text ids. Customer and order ids are integers. The order of integer
  customer ids stands in for the string order that groupby sorts by; that
  order fixes which tied customer `rank(method='first')` ranks first.
- Views.SegmentCounts: `value_counts` orders its entries by descending
  count, and this map does not model that order. The counts themselves are
  exact.
- Views.TopByMonetary: pandas' default sort is not stable, so rows tied on
  Monetary may come out in any order. The model uses a stable sort. All its
  contracts hold for any order of ties.
- Calendar.MonthKey: civil-calendar correctness is shown only on the
  concrete dates of the `Calendar` lemmas, not for all instants. The trend
  properties do not depend on it: the month is treated as a key function of
  the timestamp. Monotonicity of the month key is not proved.
- Segments.Segmentation: an empty window is reported as `InsufficientData`.
  The source would raise inside the first qcut instead. The model separates
  the two so that the empty case is visible.

## Notes on the code

- **When the scoring fails.** `pd.qcut` raises only when two of its five
  edges coincide (dashboard/dashboard.py:115-117). A small table does not
  fail by itself:
  - Two or three pairwise-distinct values cut without error
    (`Quantiles.QcutSmallIff`). Three customers with distinct spending are
    scored (`Scenarios.DistinctSpendingSucceeds`).
  - The January rows of `Scenarios` fail because two customers tie on
    Monetary, while recency and frequency cut (`Scenarios.TiedSpendingFails`).
  - The rank-based F qcut never raises once the R qcut has succeeded
    (`Segments.FrequencyNeverFails`), since the ranks of two or more rows are
    distinct.
- **Numeric comparisons in `segment`.** `segment` reads plain label values
  row by row through `apply`, so `>=` is a numeric comparison.
