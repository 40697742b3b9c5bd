# E-commerce dashboard aggregations, modelled in Dafny

The dashboard `dasboard.py` reads flat extracts of an e-commerce order
database and shows summary tables and charts. This project models the
aggregation and scoring logic behind those tables as pure functions over
finite sequences of records, and proves properties of them:

- **Delivery tables**. These are three group-counts: the distinct orders per
  delivery status, per delivery time in days, and per delay status.
- **Weekday statistics**. Orders are inner-joined to their order lines. The
  joined rows are grouped by the weekday of purchase into row count, sales,
  shipping and average value. The rows come out in Monday-to-Sunday order.
- **RFM analysis**. Orders are restricted to completed ones (status
  `"Pesanan Selesai"`) and joined to their lines. Each customer then gets:
  - frequency: the number of distinct orders;
  - monetary value: the sum of prices;
  - recency: the days between the customer's latest approval date and the
    latest approval date over all completed orders.
- **RFM segmentation**. Each column is ranked with averaged ties, and the
  ranks are scaled so the largest is 100. The three percentiles are weighted
  into a score in (0, 5]. The score is bucketed into five segments, and the
  distinct customers in each segment are counted.
- **Product view**. Product rows are filtered by a date range. The model
  then builds one summary row per product category and one row per approval
  instant.

Timestamps are whole seconds and dates are whole days (`DateOf`). Money and
scores are exact reals. Weekdays are the indices 0 (Monday) to 6 (Sunday).

Modules:
- `Records`: the row types.
- `Seqs`: filter, sums, maxima and distinct elements.
- `Grouping`: group-by with a distinct count.
- `Delivery`: the three delivery tables.
- `Merge`: the inner join.
- `Weekdays`: the weekday table. It has a functional definition and a
  one-pass method that is proved equal to it.
- `Rfm`: the per-customer records.
- `Ranking`: average ranks and percentiles.
- `Segmentation`: scores, segments and segment counts.
- `Products`: the date filter and the product tables.

## Model

| member | source | states |
|---|---|---|
| Grouping.CountDistinctBy | dasboard.py:11-27 | one entry per key present in the rows, holding the number of distinct values under that key, which is at least 1 |
| Grouping.DistinctValuesAreRows | dasboard.py:101 | when no value repeats across rows, a group's distinct-value count equals its row count |
| Delivery.DeliveryStatusCounts | dasboard.py:11-15 | a status has an entry iff some order has it; the entry is the number of distinct order ids with that status, at least 1 |
| Delivery.DeliveryTimeCounts | dasboard.py:17-21 | a day count has an entry iff some order has that delivery time; orders without one form no group; each entry counts distinct order ids and is at least 1 |
| Delivery.DelayCounts | dasboard.py:23-27 | a delay status has an entry iff some order has it; the entry is the number of distinct order ids with it, at least 1 |
| Merge.InnerJoin | dasboard.py:37 | a joined row exists iff its order row and its item row are both present and share the order id |
| Merge.JoinCount | dasboard.py:37 | each joined row occurs as many times as its order row's copies times its item row's copies, and never when the ids differ |
| Weekdays.DailyStats | dasboard.py:29-51 | rows strictly increase from Monday to Sunday; every weekday of a joined row is listed; each row counts exactly the joined rows of its weekday (at least 1) and sums their prices and freight; the average is sales over a nonzero count |
| Records.DayNamesDistinct | dasboard.py:35-39 | no two weekdays share a day name, so grouping by day name groups by weekday |
| Weekdays.NamesInWeekOrder | dasboard.py:47-49 | read by name, the weekday rows are sorted in the Monday-first category order of the day names, and no name repeats |
| Weekdays.Accumulate | dasboard.py:39-43 | after one pass over the joined rows, each of the seven buckets holds the count, sales and shipping of exactly that weekday's rows |
| Weekdays.DailyStatsOnePass | dasboard.py:39-50 | the one-pass bucket computation returns exactly the weekday table |
| Rfm.BuyerHasLine | dasboard.py:54-59 | a customer has a counted order (completed, with items) iff the customer has a row in the join of completed orders with items |
| Rfm.FrequencyIsCountedOrders | dasboard.py:61-64 | the distinct order ids in a customer's joined rows are exactly the customer's completed orders that have items |
| Rfm.RecentDate | dasboard.py:71 | the reference date is the approval date of some completed order, and no completed order, with or without items, was approved later |
| Rfm.RecencyOfRecord | dasboard.py:60-73 | a record's recency equals the latest approval date over completed orders minus the date of some counted order of the customer, and is no larger than that distance for any counted order |
| Rfm.RecencyZero | dasboard.py:70-73 | recency is 0 iff one of the customer's counted orders was approved on the latest approval date of all completed orders |
| Rfm.RfmAnalysis | dasboard.py:53-77 | one record per customer with a completed order that has items, and no other customer; frequency equals the number of such orders, at least 1; monetary value is the sum of the prices of their lines; recency as above |
| Ranking.Rank | dasboard.py:80-82 | the average rank of a value present in the column lies between 1 and the column length |
| Ranking.RankMirror | dasboard.py:80-82 | a value's ascending and descending average ranks always add up to one more than the column length, as averaging tied positions gives |
| Ranking.Ranks | dasboard.py:80-82 | each average rank lies between 1 and the column length |
| Ranking.RanksFollowValues | dasboard.py:80-82 | tied values share a rank; a smaller value ranks strictly lower ascending and strictly higher descending |
| Ranking.Percentiles | dasboard.py:84-86 | each percentile is in (0, 100]; a non-empty column has a percentile of exactly 100; percentiles keep the order of the ranks, both non-strict and strict |
| Ranking.PercentilesFollowValues | dasboard.py:80-86 | tied values share a percentile; a larger value gets a strictly larger percentile ascending and a strictly smaller one descending |
| Ranking.TiedColumnIsTop | dasboard.py:80-86 | in a column of equal values every percentile is 100 |
| Segmentation.Score | dasboard.py:90-91 | the weights sum to one: equal percentiles p give the score 0.05 p; positive percentiles give a positive score; percentiles up to 100 give a score up to 5 |
| Segmentation.ScoreBounds | dasboard.py:90-91 | percentiles in (0, 100] give a score in (0, 5]; the score is 5 iff all three percentiles are 100 |
| Segmentation.ScoreIncreasing | dasboard.py:90-91 | raising any percentile never lowers the score, and a strict rise raises it |
| Segmentation.SegmentOf | dasboard.py:95-98 | each threshold is an exclusive lower bound of the segments from its own upward: Top iff above 4.5, High or better iff above 4, Medium or better iff above 3, Low or better iff above 1.6 |
| Segmentation.LabelsDistinct | dasboard.py:95-101 | no two segments share a label, so counting customers per label (line 101) counts them per segment |
| Segmentation.SegmentMonotone | dasboard.py:95-98 | a higher score never lands in a lower segment |
| Segmentation.Scores | dasboard.py:80-91 | one score per customer, each in (0, 5] |
| Segmentation.CountSegments | dasboard.py:101 | a segment has an entry iff some customer is in it; the entry is the number of distinct customer ids in it, at least 1 |
| Segmentation.SegmentCounts | dasboard.py:79-101 | a segment has an entry iff some customer's score falls in it; the entry counts the distinct customers there |
| Segmentation.SegmentsPartition | dasboard.py:95-101 | with one row per customer, the five segment counts add up to the number of customers |
| Segmentation.CustomerSegments | dasboard.py:79-103 | the segment table as written (monetary ranked descending); over distinct customers, the segment counts add up to the number of customers |
| Segmentation.SingleCustomerIsTop | dasboard.py:80-101 | a lone customer scores exactly 5 and the table is one Top Customer |
| Segmentation.NoCustomersNoSegments | dasboard.py:101 | an empty table has no segments |
| Segmentation.MonetaryDirection | dasboard.py:82 | of two customers alike in recency and frequency, the smaller spender scores strictly lower when monetary value is ranked ascending and strictly higher when it is ranked descending |
| Segmentation.DominanceKeepsTier | dasboard.py:80-98 | with monetary value ranked ascending, a customer who is no more recent, no more frequent and no bigger a spender than another never scores higher or lands in a higher segment |
| Segmentation.CustomerSegmentsCorrected | dasboard.py:79-103 | the segment table with monetary value ranked ascending; over distinct customers, the counts add up to the number of customers |
| Segmentation.BigSpenderLandsLower | dasboard.py:82-101 | as written, of two customers who differ only in spending 100 versus 10, the big spender scores 3.575 and is a Medium Value Customer while the small spender scores 5 and is the Top Customer |
| Products.FilterAsWritten | dasboard.py:310-311 | keeps exactly the rows approved between midnight of the first day and midnight of the last day, both inclusive |
| Products.FilterByDays | dasboard.py:310-311 | keeps exactly the rows approved on any day from the first to the last |
| Products.FiltersDiffer | dasboard.py:310-311 | the two filters disagree exactly on instants of the last day after its midnight, and whatever the first keeps the second keeps |
| Products.NoonOnLastDayIsDropped | dasboard.py:310-311 | a row approved at noon on the only chosen day is dropped as written and kept by the whole-day filter |
| Products.ReviewMean | dasboard.py:274 | the mean review score is missing iff no row has a review score |
| Products.ReviewMeanBounds | dasboard.py:274 | the mean of the present review scores lies within any bounds that hold each of them |
| Products.ReviewMeanConstant | dasboard.py:274 | when some score is present and every present score is s, the mean is s |
| Products.Summarize | dasboard.py:269-279 | a category row holds the number of distinct orders in the category (at least 1), the sum of its item ids, its number of lines, the sum of its prices, the review mean of its rows (missing iff no line is reviewed), and the latest approval time among its rows |
| Products.CategoryReviewBounds | dasboard.py:274 | a category's review mean lies within any bounds that hold the review scores present in that category |
| Products.CategorySummary | dasboard.py:269-279 | one row per category present, none repeated, each the summary of exactly that category's rows |
| Products.CategoriesAddUp | dasboard.py:269-279 | the category rows split the filtered rows: their total prices add up to the total price of all rows, and their line counts to the number of rows |
| Products.SalesAtTime | dasboard.py:281-285 | a row for an approval instant holds the distinct orders approved then (at least 1), the sum of their item ids and their number of lines |
| Products.SalesOverTime | dasboard.py:281-288 | one row per approval instant present, none repeated, each the summary of exactly the rows approved then |
| Products.SalesAddUp | dasboard.py:281-288 | the line counts of the sales rows add up to the number of filtered rows |
| Products.ItemIdSumBounds | dasboard.py:272 | when item ids number lines from 1, their sum is at least the number of lines, and equals it iff every id is 1 |
| Products.ThreeItemsShownAsSix | dasboard.py:272 | one order of three lines (ids 1, 2, 3) in a category shows 6 items sold, while it has 3 lines |

## Left out

- CSV loading, `pd.to_datetime` parsing, Streamlit widgets, metrics and
  charts, and Babel currency formatting are I/O or presentation. Dates
  arrive as parsed whole seconds.
- The weekday of purchase is an input field of each order. The calendar
  computation of `day_name()` (dasboard.py:34-35) is not modelled.
- Segmentation.Scores: does not model `round(2)` (dasboard.py:92) or the
  floating-point weights, because scores are exact reals. A score close to a
  threshold can land in a different segment after rounding.
- Output row order: pandas sorts group keys. The model returns the delivery
  and segment tables as maps, and the RFM and product tables in order of
  first appearance. Only the weekday table's order is modelled, because the
  source fixes it explicitly.
- Missing approval timestamps (`NaT`) are not modelled. Every order and
  product row has an approval time.
- Missing group keys are modelled only for the delivery time. A pandas
  group-by drops rows whose key is missing. The model has every order carry
  a delivery status, a delay status, a customer and a purchase weekday, and
  every product row carry a category. So a product row with no category,
  which the source leaves out of the category table (dasboard.py:270) but
  keeps in the sales table, has no counterpart here.
- The display-only means and the `.head(10)` calls (dasboard.py:93, 100)
  have no effect on the results.
- The product view groups by exact approval instant (dasboard.py:282), as
  written, not by calendar day.
- When no customer remains, the model produces an empty segment table, as
  the group-by does. Every segment's count (`CountOf`) is then 0. No error
  or sentinel is produced.
- A weekday row never has a zero count, which is proved. No division-by-zero
  sentinel is therefore needed.

## Findings

| source | as written | input that shows it | evidently intended | confidence | as-written member | corrected member |
|---|---|---|---|---|---|---|
| dasboard.py:82 | monetary value is ranked with `ascending=False`, so the biggest spender gets the smallest monetary percentile | customers a (spent 100) and b (spent 10), both frequency 1 and recency 0: a scores 3.575 (Medium Value), b scores 5 (Top) | spending more never lowers the score, as for frequency | high (not executed) | Segmentation.CustomerSegments, Segmentation.BigSpenderLandsLower | Segmentation.CustomerSegmentsCorrected, Segmentation.DominanceKeepsTier |
| dasboard.py:310-311 | approval times are compared with the date strings, which pandas reads as midnight, so the last chosen day only counts at 00:00:00 | a row approved at noon on day d with the range d..d is dropped | every instant of the chosen days is kept | high (not executed) | Products.FilterAsWritten, Products.NoonOnLastDayIsDropped | Products.FilterByDays, Products.FiltersDiffer |
| dasboard.py:272, dasboard.py:284 | "items sold" sums the `order_item_id` column, which numbers the lines of an order from 1 | one order with lines 1, 2 and 3 shows 6 items sold | the number of lines | high (not executed) | Products.ThreeItemsShownAsSix | Products.Summarize, Products.ItemIdSumBounds |
