/** The product-category view: the date-range filter over the product
    extract, then one summary row per category and one per approval time. */
module Products {
  import opened Records
  import opened Seqs

  /** The filter as written: approval times are compared with midnight at the
      start of the first and of the last chosen day, both inclusive. */
  predicate InRangeAsWritten(start: Date, end: Date, t: Timestamp) {
    StartOfDay(start) <= t <= StartOfDay(end)
  }

  /** The filter as a date range is meant: every instant of the first through
      the last chosen day. */
  predicate InDays(start: Date, end: Date, t: Timestamp) {
    start <= DateOf(t) <= end
  }

  function ApprovedIn(start: Date, end: Date): ProductRow -> bool {
    (r: ProductRow) => InRangeAsWritten(start, end, r.approvedAt)
  }

  function ApprovedOnDays(start: Date, end: Date): ProductRow -> bool {
    (r: ProductRow) => InDays(start, end, r.approvedAt)
  }

  /** The rows the dashboard keeps for a chosen range. */
  function FilterAsWritten(rows: seq<ProductRow>, start: Date, end: Date): (kept: seq<ProductRow>)
    ensures |kept| <= |rows|
    ensures forall r :: r in kept <==> r in rows && StartOfDay(start) <= r.approvedAt <= StartOfDay(end)
  {
    Filter(rows, ApprovedIn(start, end))
  }

  /** The rows a whole-day range keeps. */
  function FilterByDays(rows: seq<ProductRow>, start: Date, end: Date): (kept: seq<ProductRow>)
    ensures |kept| <= |rows|
    ensures forall r :: r in kept <==> r in rows && start <= DateOf(r.approvedAt) <= end
  {
    Filter(rows, ApprovedOnDays(start, end))
  }

  /** The two filters disagree exactly on the instants of the last chosen day
      after its midnight; there the filter as written drops the row. */
  lemma FiltersDiffer(start: Date, end: Date, t: Timestamp)
    ensures InRangeAsWritten(start, end, t) != InDays(start, end, t) <==>
      start <= end && DateOf(t) == end && t > StartOfDay(end)
    ensures InRangeAsWritten(start, end, t) ==> InDays(start, end, t)
  {
    var d := DateOf(t);
    if d < end {
      assert (d + 1) * SecondsPerDay <= end * SecondsPerDay;
    }
    if d > end {
      assert d * SecondsPerDay >= (end + 1) * SecondsPerDay;
    }
    if d < start {
      assert (d + 1) * SecondsPerDay <= start * SecondsPerDay;
    }
    if d >= start {
      assert d * SecondsPerDay >= start * SecondsPerDay;
    }
  }

  /** A sale approved at noon on the only chosen day is not shown. */
  lemma NoonOnLastDayIsDropped(d: Date, row: ProductRow)
    requires row.approvedAt == StartOfDay(d) + 43200
    ensures FilterAsWritten([row], d, d) == []
    ensures FilterByDays([row], d, d) == [row]
  {
    var days := FilterByDays([row], d, d);
    assert row in days;
    assert |days| == 1;
    assert days[0] in days;
  }

  /** One row of the category summary. `itemIdSum` adds up the order item
      ids, as the dashboard does; `itemCount` is the number of order lines,
      which is what the column is meant to show. A review mean is missing when
      no row of the category has a review score. */
  datatype CategoryRow = CategoryRow(
    category: string,
    orderCount: nat,
    itemIdSum: int,
    itemCount: nat,
    totalPrice: real,
    reviewMean: Option<real>,
    lastApproval: Timestamp)

  /** One row of the sales-over-time table: the sales approved at one instant. */
  datatype SalesRow = SalesRow(
    at: Timestamp,
    orderCount: nat,
    itemIdSum: int,
    itemCount: nat)

  function CategoryOf(r: ProductRow): string { r.category }
  function ItemIdOf(r: ProductRow): int { r.orderItemId }
  function PriceOf(r: ProductRow): real { r.price }
  function ApprovedAt(r: ProductRow): Timestamp { r.approvedAt }
  function HasReview(r: ProductRow): bool { r.reviewScore.Some? }
  function ReviewOf(r: ProductRow): real { if r.reviewScore.Some? then r.reviewScore.value else 0.0 }

  function KeyIs<K(==)>(key: ProductRow -> K, k: K): ProductRow -> bool {
    (r: ProductRow) => key(r) == k
  }

  /** The rows whose key is k. */
  function RowsWith<K(==)>(rows: seq<ProductRow>, key: ProductRow -> K, k: K): seq<ProductRow> {
    Filter(rows, KeyIs(key, k))
  }

  /** Some row has key k. */
  predicate HasKey<K(==)>(rows: seq<ProductRow>, key: ProductRow -> K, k: K) {
    exists r :: r in rows && key(r) == k
  }

  lemma KeyHasRows<K(!new)>(rows: seq<ProductRow>, key: ProductRow -> K, k: K)
    requires HasKey(rows, key, k)
    ensures |RowsWith(rows, key, k)| > 0
  {
    var r :| r in rows && key(r) == k;
    assert KeyIs(key, k)(r);
    assert r in RowsWith(rows, key, k);
  }

  lemma KeyHasRowsAt<K(!new)>(rows: seq<ProductRow>, key: ProductRow -> K, ks: seq<K>, i: int)
    requires ks == DistinctKeys(rows, key) && 0 <= i < |ks|
    ensures HasKey(rows, key, ks[i])
    ensures |RowsWith(rows, key, ks[i])| > 0
  {
    assert ks[i] in ks;
    KeyHasRows(rows, key, ks[i]);
  }

  /** The distinct order ids among some rows. */
  function OrderIdsOf(rows: seq<ProductRow>): set<OrderId> {
    set r | r in rows :: r.orderId
  }

  /** The distinct orders with a row whose key is k. */
  function OrdersWith<K(==,!new)>(rows: seq<ProductRow>, key: ProductRow -> K, k: K): set<OrderId> {
    set r | r in rows && key(r) == k :: r.orderId
  }

  lemma OrdersWithOf<K(!new)>(rows: seq<ProductRow>, key: ProductRow -> K, k: K)
    ensures OrderIdsOf(RowsWith(rows, key, k)) == OrdersWith(rows, key, k)
  {
    forall id | id in OrdersWith(rows, key, k)
      ensures id in OrderIdsOf(RowsWith(rows, key, k))
    {
      var r :| r in rows && key(r) == k && r.orderId == id;
      assert KeyIs(key, k)(r);
    }
  }

  lemma MeanTimesCount(total: real, n: real)
    requires n > 0.0
    ensures total / n * n == total
  {
  }

  lemma MeanBetween(total: real, n: real, lo: real, hi: real)
    requires n > 0.0 && n * lo <= total <= n * hi
    ensures lo <= total / n <= hi
  {
    MeanTimesCount(total, n);
    assert n * (total / n - lo) >= 0.0;
    assert n * (hi - total / n) >= 0.0;
  }

  /** The average review score of some rows lies within the bounds of each. */
  lemma AverageBetween(rows: seq<ProductRow>, lo: real, hi: real)
    requires |rows| > 0
    requires forall r :: r in rows ==> lo <= ReviewOf(r) <= hi
    ensures lo <= Sum(rows, ReviewOf) / |rows| as real <= hi
  {
    var total, n := Sum(rows, ReviewOf), |rows| as real;
    assert n * lo <= total <= n * hi by {
      SumBounds(rows, ReviewOf, lo, hi);
    }
    MeanBetween(total, n, lo, hi);
  }

  /** The mean of the review scores present among rows, skipping missing
      ones; missing when none is present. */
  function ReviewMean(rows: seq<ProductRow>): (mean: Option<real>)
    ensures mean.None? <==> forall r :: r in rows ==> !HasReview(r)
  {
    var reviewed := Filter(rows, HasReview);
    if |reviewed| == 0 then
      None
    else
      assert reviewed[0] in reviewed;
      Some(Sum(reviewed, ReviewOf) / |reviewed| as real)
  }

  /** The mean lies within any bounds that hold every present review score. */
  lemma ReviewMeanBounds(rows: seq<ProductRow>, lo: real, hi: real)
    requires forall r :: r in rows && HasReview(r) ==> lo <= ReviewOf(r) <= hi
    ensures ReviewMean(rows).Some? ==> lo <= ReviewMean(rows).value <= hi
  {
    var reviewed := Filter(rows, HasReview);
    if |reviewed| > 0 {
      AverageBetween(reviewed, lo, hi);
    }
  }

  /** When every present review score is s, and there is one, the mean is s. */
  lemma ReviewMeanConstant(rows: seq<ProductRow>, s: real)
    requires exists r :: r in rows && HasReview(r)
    requires forall r :: r in rows && HasReview(r) ==> r.reviewScore == Some(s)
    ensures ReviewMean(rows) == Some(s)
  {
    ReviewMeanBounds(rows, s, s);
  }

  /** The summary row of category c, which has at least one row: its distinct
      orders, its order lines, their prices and review scores, and its latest
      approval. */
  function Summarize(rows: seq<ProductRow>, c: string): (row: CategoryRow)
    requires |RowsWith(rows, CategoryOf, c)| > 0
    ensures row.category == c
    ensures row.orderCount == |OrdersWith(rows, CategoryOf, c)| >= 1
    ensures row.itemIdSum == SumInt(RowsWith(rows, CategoryOf, c), ItemIdOf)
    ensures row.itemCount == |RowsWith(rows, CategoryOf, c)|
    ensures row.totalPrice == Sum(RowsWith(rows, CategoryOf, c), PriceOf)
    ensures row.reviewMean == ReviewMean(RowsWith(rows, CategoryOf, c))
    ensures row.reviewMean.None? <==> forall r :: r in rows && r.category == c ==> !HasReview(r)
    ensures exists r :: r in rows && r.category == c && r.approvedAt == row.lastApproval
    ensures forall r :: r in rows && r.category == c ==> r.approvedAt <= row.lastApproval
  {
    var mine := RowsWith(rows, CategoryOf, c);
    OrdersWithOf(rows, CategoryOf, c);
    assert mine[0] in mine;
    assert mine[0].orderId in OrderIdsOf(mine);
    assert forall r :: r in rows && r.category == c ==> r in mine by {
      forall r | r in rows && r.category == c
        ensures r in mine
      {
        assert KeyIs(CategoryOf, c)(r);
      }
    }
    CategoryRow(c, |OrderIdsOf(mine)|, SumInt(mine, ItemIdOf), |mine|, Sum(mine, PriceOf),
                ReviewMean(mine), MaxInt(mine, ApprovedAt))
  }

  /** A category's review mean lies within any bounds that hold the review
      scores present in that category. */
  lemma CategoryReviewBounds(rows: seq<ProductRow>, c: string, lo: real, hi: real)
    requires |RowsWith(rows, CategoryOf, c)| > 0
    requires forall r :: r in rows && r.category == c && HasReview(r) ==> lo <= ReviewOf(r) <= hi
    ensures Summarize(rows, c).reviewMean.Some? ==> lo <= Summarize(rows, c).reviewMean.value <= hi
  {
    ReviewMeanBounds(RowsWith(rows, CategoryOf, c), lo, hi);
  }

  function SummaryRows(rows: seq<ProductRow>): seq<CategoryRow> {
    var cs := DistinctKeys(rows, CategoryOf);
    seq(|cs|, i requires 0 <= i < |cs| =>
      KeyHasRowsAt(rows, CategoryOf, cs, i);
      Summarize(rows, cs[i]))
  }

  lemma SummaryRowsAt(rows: seq<ProductRow>, i: int)
    requires 0 <= i < |DistinctKeys(rows, CategoryOf)|
    ensures |SummaryRows(rows)| == |DistinctKeys(rows, CategoryOf)|
    ensures var c := DistinctKeys(rows, CategoryOf)[i];
      && SummaryRows(rows)[i].category == c
      && HasKey(rows, CategoryOf, c)
      && |RowsWith(rows, CategoryOf, c)| > 0
      && SummaryRows(rows)[i] == Summarize(rows, c)
  {
    KeyHasRowsAt(rows, CategoryOf, DistinctKeys(rows, CategoryOf), i);
  }

  lemma SummaryRowsEach(rows: seq<ProductRow>)
    ensures |SummaryRows(rows)| == |DistinctKeys(rows, CategoryOf)|
    ensures var table := SummaryRows(rows);
      forall i :: 0 <= i < |table| ==>
        && table[i].category == DistinctKeys(rows, CategoryOf)[i]
        && HasKey(rows, CategoryOf, table[i].category)
        && |RowsWith(rows, CategoryOf, table[i].category)| > 0
        && table[i] == Summarize(rows, table[i].category)
  {
    var cs := DistinctKeys(rows, CategoryOf);
    if |cs| > 0 { SummaryRowsAt(rows, 0); }
    forall i | 0 <= i < |cs|
      ensures SummaryRows(rows)[i].category == cs[i] && HasKey(rows, CategoryOf, cs[i])
      ensures |RowsWith(rows, CategoryOf, cs[i])| > 0 && SummaryRows(rows)[i] == Summarize(rows, cs[i])
    {
      SummaryRowsAt(rows, i);
    }
  }

  lemma SummaryRowsCover(rows: seq<ProductRow>)
    ensures var table := SummaryRows(rows);
      && (forall i, j :: 0 <= i < j < |table| ==> table[i].category != table[j].category)
      && (forall r :: r in rows ==> exists i :: 0 <= i < |table| && table[i].category == r.category)
  {
    var cs := DistinctKeys(rows, CategoryOf);
    var table := SummaryRows(rows);
    SummaryRowsEach(rows);
    assert forall i :: 0 <= i < |table| ==> table[i].category == cs[i];
    forall r | r in rows
      ensures exists i :: 0 <= i < |table| && table[i].category == r.category
    {
      assert CategoryOf(r) in cs;
      var i :| 0 <= i < |cs| && cs[i] == r.category;
      assert table[i].category == r.category;
    }
  }


  /** The per-category summary over the filtered rows: one row per category
      present, in order of first appearance. */
  function CategorySummary(rows: seq<ProductRow>): (table: seq<CategoryRow>)
    ensures forall i, j :: 0 <= i < j < |table| ==> table[i].category != table[j].category
    ensures forall i :: 0 <= i < |table| ==> HasKey(rows, CategoryOf, table[i].category)
    ensures forall r :: r in rows ==> exists i :: 0 <= i < |table| && table[i].category == r.category
    ensures forall i :: 0 <= i < |table| ==>
      |RowsWith(rows, CategoryOf, table[i].category)| > 0 && table[i] == Summarize(rows, table[i].category)
  {
    SummaryRowsEach(rows);
    SummaryRowsCover(rows);
    SummaryRows(rows)
  }

  /** The sales row of instant t, at which at least one row was approved:
      its distinct orders and its order lines. */
  function SalesAtTime(rows: seq<ProductRow>, t: Timestamp): (row: SalesRow)
    requires |RowsWith(rows, ApprovedAt, t)| > 0
    ensures row.at == t
    ensures row.orderCount == |OrdersWith(rows, ApprovedAt, t)| >= 1
    ensures row.itemIdSum == SumInt(RowsWith(rows, ApprovedAt, t), ItemIdOf)
    ensures row.itemCount == |RowsWith(rows, ApprovedAt, t)|
  {
    var mine := RowsWith(rows, ApprovedAt, t);
    OrdersWithOf(rows, ApprovedAt, t);
    assert mine[0] in mine;
    assert mine[0].orderId in OrderIdsOf(mine);
    SalesRow(t, |OrderIdsOf(mine)|, SumInt(mine, ItemIdOf), |mine|)
  }

  function SalesRows(rows: seq<ProductRow>): seq<SalesRow> {
    var ts := DistinctKeys(rows, ApprovedAt);
    seq(|ts|, i requires 0 <= i < |ts| =>
      KeyHasRowsAt(rows, ApprovedAt, ts, i);
      SalesAtTime(rows, ts[i]))
  }

  lemma SalesRowsAt(rows: seq<ProductRow>, i: int)
    requires 0 <= i < |DistinctKeys(rows, ApprovedAt)|
    ensures |SalesRows(rows)| == |DistinctKeys(rows, ApprovedAt)|
    ensures var t := DistinctKeys(rows, ApprovedAt)[i];
      && SalesRows(rows)[i].at == t
      && HasKey(rows, ApprovedAt, t)
      && |RowsWith(rows, ApprovedAt, t)| > 0
      && SalesRows(rows)[i] == SalesAtTime(rows, t)
  {
    KeyHasRowsAt(rows, ApprovedAt, DistinctKeys(rows, ApprovedAt), i);
  }

  lemma SalesRowsEach(rows: seq<ProductRow>)
    ensures |SalesRows(rows)| == |DistinctKeys(rows, ApprovedAt)|
    ensures var table := SalesRows(rows);
      forall i :: 0 <= i < |table| ==>
        && table[i].at == DistinctKeys(rows, ApprovedAt)[i]
        && HasKey(rows, ApprovedAt, table[i].at)
        && |RowsWith(rows, ApprovedAt, table[i].at)| > 0
        && table[i] == SalesAtTime(rows, table[i].at)
  {
    var ts := DistinctKeys(rows, ApprovedAt);
    if |ts| > 0 { SalesRowsAt(rows, 0); }
    forall i | 0 <= i < |ts|
      ensures SalesRows(rows)[i].at == ts[i] && HasKey(rows, ApprovedAt, ts[i])
      ensures |RowsWith(rows, ApprovedAt, ts[i])| > 0 && SalesRows(rows)[i] == SalesAtTime(rows, ts[i])
    {
      SalesRowsAt(rows, i);
    }
  }

  lemma SalesRowsCover(rows: seq<ProductRow>)
    ensures var table := SalesRows(rows);
      && (forall i, j :: 0 <= i < j < |table| ==> table[i].at != table[j].at)
      && (forall r :: r in rows ==> exists i :: 0 <= i < |table| && table[i].at == r.approvedAt)
  {
    var ts := DistinctKeys(rows, ApprovedAt);
    var table := SalesRows(rows);
    SalesRowsEach(rows);
    assert forall i :: 0 <= i < |table| ==> table[i].at == ts[i];
    forall r | r in rows
      ensures exists i :: 0 <= i < |table| && table[i].at == r.approvedAt
    {
      assert ApprovedAt(r) in ts;
      var i :| 0 <= i < |ts| && ts[i] == r.approvedAt;
      assert table[i].at == r.approvedAt;
    }
  }


  /** Sales over time: one row per distinct approval instant among the
      filtered rows, in order of first appearance. */
  function SalesOverTime(rows: seq<ProductRow>): (table: seq<SalesRow>)
    ensures forall i, j :: 0 <= i < j < |table| ==> table[i].at != table[j].at
    ensures forall i :: 0 <= i < |table| ==> HasKey(rows, ApprovedAt, table[i].at)
    ensures forall r :: r in rows ==> exists i :: 0 <= i < |table| && table[i].at == r.approvedAt
    ensures forall i :: 0 <= i < |table| ==>
      |RowsWith(rows, ApprovedAt, table[i].at)| > 0 && table[i] == SalesAtTime(rows, table[i].at)
  {
    SalesRowsEach(rows);
    SalesRowsCover(rows);
    SalesRows(rows)
  }

  /** The totals of f over the rows of each key in ks, added up. */
  function KeyTotals<K(==)>(rows: seq<ProductRow>, key: ProductRow -> K, ks: seq<K>, f: ProductRow -> real): real {
    if ks == [] then 0.0
    else KeyTotals(rows, key, ks[..|ks| - 1], f) + Sum(RowsWith(rows, key, ks[|ks| - 1]), f)
  }

  lemma {:induction false} KeyTotalsEmpty<K>(key: ProductRow -> K, ks: seq<K>, f: ProductRow -> real)
    ensures KeyTotals([], key, ks, f) == 0.0
  {
    if ks != [] {
      KeyTotalsEmpty(key, ks[..|ks| - 1], f);
    }
  }

  /** One more row adds its value to the total of its own key, if listed. */
  lemma {:induction false} KeyTotalsSnoc<K>(rows: seq<ProductRow>, x: ProductRow, key: ProductRow -> K, ks: seq<K>, f: ProductRow -> real)
    requires NoDuplicates(ks)
    ensures KeyTotals(rows + [x], key, ks, f) == KeyTotals(rows, key, ks, f) + (if key(x) in ks then f(x) else 0.0)
  {
    if ks != [] {
      var init, k := ks[..|ks| - 1], ks[|ks| - 1];
      assert NoDuplicates(init);
      assert key(x) in ks <==> key(x) in init || key(x) == k;
      assert key(x) in init ==> key(x) != k;
      KeyTotalsSnoc(rows, x, key, init, f);
      FilterSnoc(rows, x, KeyIs(key, k));
      if key(x) == k {
        SumSnoc(RowsWith(rows, key, k), x, f);
      }
    }
  }

  /** Over keys that cover every row, each listed once, the per-key totals
      add up to the total over all rows. */
  lemma {:induction false} KeyTotalsAddUp<K>(rows: seq<ProductRow>, key: ProductRow -> K, ks: seq<K>, f: ProductRow -> real)
    requires NoDuplicates(ks)
    requires forall r :: r in rows ==> key(r) in ks
    ensures KeyTotals(rows, key, ks, f) == Sum(rows, f)
  {
    if rows == [] {
      KeyTotalsEmpty(key, ks, f);
    } else {
      var init, x := rows[..|rows| - 1], rows[|rows| - 1];
      SnocSplit(rows);
      KeyTotalsAddUp(init, key, ks, f);
      KeyTotalsSnoc(init, x, key, ks, f);
    }
  }

  /** A table column whose i-th entry totals f over the rows of key ks[i]
      adds up to the per-key totals. */
  lemma {:induction false} ColumnTotals<R, K>(table: seq<R>, g: R -> real, rows: seq<ProductRow>, key: ProductRow -> K, ks: seq<K>, f: ProductRow -> real)
    requires |table| == |ks|
    requires forall i :: 0 <= i < |table| ==> g(table[i]) == Sum(RowsWith(rows, key, ks[i]), f)
    ensures Sum(table, g) == KeyTotals(rows, key, ks, f)
  {
    if table != [] {
      var n := |table| - 1;
      ColumnTotals(table[..n], g, rows, key, ks[..n], f);
    }
  }

  function One(r: ProductRow): real { 1.0 }

  lemma {:induction false} SumOnes(rows: seq<ProductRow>)
    ensures Sum(rows, One) == |rows| as real
  {
    if rows != [] {
      SumOnes(rows[..|rows| - 1]);
    }
  }

  function TotalPriceOf(row: CategoryRow): real { row.totalPrice }
  function CategoryLinesOf(row: CategoryRow): real { row.itemCount as real }
  function SalesLinesOf(row: SalesRow): real { row.itemCount as real }

  /** The category rows split the filtered rows: their prices add up to the
      total price of all rows, and their line counts to the number of rows. */
  lemma CategoriesAddUp(rows: seq<ProductRow>)
    ensures Sum(CategorySummary(rows), TotalPriceOf) == Sum(rows, PriceOf)
    ensures Sum(CategorySummary(rows), CategoryLinesOf) == |rows| as real
  {
    var table, cs := CategorySummary(rows), DistinctKeys(rows, CategoryOf);
    SummaryRowsEach(rows);
    assert forall r :: r in rows ==> CategoryOf(r) in cs;
    forall i | 0 <= i < |table|
      ensures CategoryLinesOf(table[i]) == Sum(RowsWith(rows, CategoryOf, cs[i]), One)
    {
      SumOnes(RowsWith(rows, CategoryOf, cs[i]));
    }
    ColumnTotals(table, TotalPriceOf, rows, CategoryOf, cs, PriceOf);
    KeyTotalsAddUp(rows, CategoryOf, cs, PriceOf);
    ColumnTotals(table, CategoryLinesOf, rows, CategoryOf, cs, One);
    KeyTotalsAddUp(rows, CategoryOf, cs, One);
    SumOnes(rows);
  }

  /** The sales rows split the filtered rows: their line counts add up to the
      number of rows. */
  lemma SalesAddUp(rows: seq<ProductRow>)
    ensures Sum(SalesOverTime(rows), SalesLinesOf) == |rows| as real
  {
    var table, ts := SalesOverTime(rows), DistinctKeys(rows, ApprovedAt);
    SalesRowsEach(rows);
    assert forall r :: r in rows ==> ApprovedAt(r) in ts;
    forall i | 0 <= i < |table|
      ensures SalesLinesOf(table[i]) == Sum(RowsWith(rows, ApprovedAt, ts[i]), One)
    {
      SumOnes(RowsWith(rows, ApprovedAt, ts[i]));
    }
    ColumnTotals(table, SalesLinesOf, rows, ApprovedAt, ts, One);
    KeyTotalsAddUp(rows, ApprovedAt, ts, One);
    SumOnes(rows);
  }

  /** Order item ids number the lines of an order from 1, so their sum is at
      least the number of lines, and equal to it only when every line is the
      first of its order. */
  lemma {:induction false} ItemIdSumBounds(rows: seq<ProductRow>)
    requires forall r :: r in rows ==> r.orderItemId >= 1
    ensures SumInt(rows, ItemIdOf) >= |rows|
    ensures SumInt(rows, ItemIdOf) == |rows| <==> forall r :: r in rows ==> r.orderItemId == 1
  {
    if rows != [] {
      var init, last := rows[..|rows| - 1], rows[|rows| - 1];
      SnocSplit(rows);
      ItemIdSumBounds(init);
      assert rows == init + [last];
      SumIntSnoc(init, last, ItemIdOf);
    }
  }

  lemma SingleCategory(rows: seq<ProductRow>, c: string)
    requires forall r :: r in rows ==> r.category == c
    ensures RowsWith(rows, CategoryOf, c) == rows
  {
    forall r | r in rows
      ensures KeyIs(CategoryOf, c)(r)
    {
      assert CategoryOf(r) == c;
    }
    FilterAll(rows, KeyIs(CategoryOf, c));
  }

  /** One order of three lines in one category. */
  const ThreeLineOrder: seq<ProductRow> := [
    ProductRow("o1", 1, 10.0, Some(5.0), 0, "toys"),
    ProductRow("o1", 2, 10.0, Some(5.0), 0, "toys"),
    ProductRow("o1", 3, 10.0, Some(5.0), 0, "toys")]

  /** As computed, three items sold are shown as six. */
  lemma ThreeItemsShownAsSix()
    ensures |RowsWith(ThreeLineOrder, CategoryOf, "toys")| == 3
    ensures Summarize(ThreeLineOrder, "toys").itemIdSum == 6
    ensures Summarize(ThreeLineOrder, "toys").itemCount == 3
  {
    var rows := ThreeLineOrder;
    SingleCategory(rows, "toys");
    var one, two := rows[..1], rows[..2];
    assert one[..0] == [];
    assert SumInt(one, ItemIdOf) == 1;
    assert two[..1] == one;
    assert SumInt(two, ItemIdOf) == 3;
    assert rows[..|rows| - 1] == two;
    assert SumInt(rows, ItemIdOf) == 6;
  }
}
