/** Purchases per day of the week: the orders joined to their items, grouped
    by the weekday of purchase, listed Monday first. */
module Weekdays {
  import opened Records
  import opened Seqs
  import opened Merge

  /** One row of the weekday table. The order total counts joined rows, that
      is order lines, not distinct orders. */
  datatype DayStat = DayStat(
    day: Weekday,
    totalOrder: nat,
    totalSales: real,
    totalShipping: real,
    avgValue: real)

  function DayOf(l: Line): Weekday { l.order.purchaseWeekday }

  function IsOnDay(d: Weekday): Line -> bool {
    l => DayOf(l) == d
  }

  /** The joined rows purchased on weekday d. */
  function OnDay(lines: seq<Line>, d: Weekday): seq<Line> {
    Filter(lines, IsOnDay(d))
  }

  lemma OnDayHas(lines: seq<Line>, l: Line)
    requires l in lines
    ensures |OnDay(lines, DayOf(l))| > 0
  {
    assert IsOnDay(DayOf(l))(l);
    assert l in OnDay(lines, DayOf(l));
  }

  /** The row for a weekday that has at least one joined row; its average
      therefore never divides by zero. */
  function StatFor(lines: seq<Line>, d: Weekday): DayStat
    requires |OnDay(lines, d)| > 0
  {
    var mine := OnDay(lines, d);
    var sales := Sum(mine, PriceOf);
    DayStat(d, |mine|, sales, Sum(mine, FreightOf), sales / |mine| as real)
  }

  /** row is the weekday table's row for its own weekday. */
  predicate RowOf(lines: seq<Line>, row: DayStat) {
    |OnDay(lines, row.day)| > 0 && row == StatFor(lines, row.day)
  }

  /** The rows for the weekdays before d that occur in the joined rows. */
  function StatsBefore(lines: seq<Line>, d: nat): (rows: seq<DayStat>)
    requires d <= 7
    ensures forall j :: 0 <= j < |rows| ==> rows[j].day < d
    ensures forall i, j :: 0 <= i < j < |rows| ==> rows[i].day < rows[j].day
  {
    if d == 0 then []
    else
      var prev := StatsBefore(lines, d - 1);
      if |OnDay(lines, d - 1)| > 0 then
        var rows := prev + [StatFor(lines, d - 1)];
        rows
      else prev
  }

  lemma {:induction false} StatsBeforeRows(lines: seq<Line>, d: nat)
    requires d <= 7
    ensures forall j :: 0 <= j < |StatsBefore(lines, d)| ==> RowOf(lines, StatsBefore(lines, d)[j])
  {
    if d > 0 {
      StatsBeforeRows(lines, d - 1);
    }
  }

  lemma {:induction false} StatsBeforeCovers(lines: seq<Line>, d: nat, w: Weekday)
    requires d <= 7
    requires w < d && |OnDay(lines, w)| > 0
    ensures exists j :: 0 <= j < |StatsBefore(lines, d)| && StatsBefore(lines, d)[j].day == w
  {
    var prev := StatsBefore(lines, d - 1);
    if w < d - 1 {
      StatsBeforeCovers(lines, d - 1, w);
      var j :| 0 <= j < |prev| && prev[j].day == w;
      assert StatsBefore(lines, d)[j] == prev[j];
    } else {
      assert StatsBefore(lines, d)[|prev|].day == w;
    }
  }

  lemma StatsCoverPresentDays(lines: seq<Line>, rows: seq<DayStat>)
    requires rows == StatsBefore(lines, 7)
    ensures forall l :: l in lines ==> exists j :: 0 <= j < |rows| && rows[j].day == DayOf(l)
  {
    forall l | l in lines
      ensures exists j :: 0 <= j < |rows| && rows[j].day == DayOf(l)
    {
      OnDayHas(lines, l);
      StatsBeforeCovers(lines, 7, DayOf(l));
    }
  }

  lemma RowTotals(lines: seq<Line>, rows: seq<DayStat>)
    requires rows == StatsBefore(lines, 7)
    ensures forall j :: 0 <= j < |rows| ==>
      var mine := OnDay(lines, rows[j].day);
      && rows[j].totalOrder == |mine| >= 1
      && rows[j].totalSales == Sum(mine, PriceOf)
      && rows[j].totalShipping == Sum(mine, FreightOf)
      && rows[j].avgValue == rows[j].totalSales / rows[j].totalOrder as real
  {
    StatsBeforeRows(lines, 7);
    forall j | 0 <= j < |rows|
      ensures rows[j] == StatFor(lines, rows[j].day)
    {
      assert RowOf(lines, rows[j]);
    }
  }

  /** The weekday table: one row per weekday on which some joined row was
      purchased (a listed weekday has at least one joined row, and every
      joined row's weekday is listed), strictly in Monday-to-Sunday order whatever the input order,
      each row totalling exactly the joined rows of its weekday. */
  function DailyStats(orders: seq<Order>, items: seq<OrderItem>): (rows: seq<DayStat>)
    ensures forall i, j :: 0 <= i < j < |rows| ==> rows[i].day < rows[j].day
    ensures forall l :: l in InnerJoin(orders, items) ==>
      exists j :: 0 <= j < |rows| && rows[j].day == DayOf(l)
    ensures forall j :: 0 <= j < |rows| ==>
      var mine := OnDay(InnerJoin(orders, items), rows[j].day);
      && rows[j].totalOrder == |mine| >= 1
      && rows[j].totalSales == Sum(mine, PriceOf)
      && rows[j].totalShipping == Sum(mine, FreightOf)
      && rows[j].avgValue == rows[j].totalSales / rows[j].totalOrder as real
  {
    StatsCoverPresentDays(InnerJoin(orders, items), StatsBefore(InnerJoin(orders, items), 7));
    RowTotals(InnerJoin(orders, items), StatsBefore(InnerJoin(orders, items), 7));
    StatsBefore(InnerJoin(orders, items), 7)
  }

  /** Read by name, the weekday table is sorted by the Monday-first category
      order of the day names, and no name repeats. */
  lemma NamesInWeekOrder(orders: seq<Order>, items: seq<OrderItem>)
    ensures var rows := DailyStats(orders, items);
      forall i, j :: 0 <= i < j < |rows| ==>
        && DayName(rows[i].day) != DayName(rows[j].day)
        && exists p, q :: 0 <= p < q < |DayNames| && DayNames[p] == DayName(rows[i].day) && DayNames[q] == DayName(rows[j].day)
  {
    var rows := DailyStats(orders, items);
    forall i, j | 0 <= i < j < |rows|
      ensures DayName(rows[i].day) != DayName(rows[j].day)
      ensures exists p, q :: 0 <= p < q < |DayNames| && DayNames[p] == DayName(rows[i].day) && DayNames[q] == DayName(rows[j].day)
    {
      DayNamesDistinct(rows[i].day, rows[j].day);
      var p, q := rows[i].day, rows[j].day;
      assert DayNames[p] == DayName(rows[i].day) && DayNames[q] == DayName(rows[j].day);
    }
  }

  /** Running totals for one weekday. */
  datatype Bucket = Bucket(count: nat, sales: real, shipping: real)

  /** The totals of the joined rows purchased on weekday d. */
  function BucketOf(lines: seq<Line>, d: Weekday): Bucket {
    var mine := OnDay(lines, d);
    Bucket(|mine|, Sum(mine, PriceOf), Sum(mine, FreightOf))
  }

  lemma BucketSnoc(lines: seq<Line>, l: Line, d: Weekday)
    ensures BucketOf(lines + [l], d) ==
      var b := BucketOf(lines, d);
      if DayOf(l) == d then Bucket(b.count + 1, b.sales + PriceOf(l), b.shipping + FreightOf(l)) else b
  {
    FilterSnoc(lines, l, IsOnDay(d));
    SumSnoc(OnDay(lines, d), l, PriceOf);
    SumSnoc(OnDay(lines, d), l, FreightOf);
  }

  /** The buckets after adding one more joined row. */
  function AddLine(buckets: seq<Bucket>, l: Line): (next: seq<Bucket>)
    requires |buckets| == 7
    ensures |next| == 7
  {
    var b := buckets[DayOf(l)];
    buckets[DayOf(l) := Bucket(b.count + 1, b.sales + PriceOf(l), b.shipping + FreightOf(l))]
  }

  lemma AddLineStep(prefix: seq<Line>, l: Line, buckets: seq<Bucket>)
    requires |buckets| == 7
    requires forall d: Weekday :: buckets[d] == BucketOf(prefix, d)
    ensures forall d: Weekday :: AddLine(buckets, l)[d] == BucketOf(prefix + [l], d)
  {
    forall d: Weekday
      ensures AddLine(buckets, l)[d] == BucketOf(prefix + [l], d)
    {
      BucketSnoc(prefix, l, d);
    }
  }

  /** One pass over the joined rows, adding each row to its weekday's bucket. */
  method Accumulate(lines: seq<Line>) returns (buckets: seq<Bucket>)
    ensures |buckets| == 7
    ensures forall d: Weekday :: buckets[d] == BucketOf(lines, d)
  {
    buckets := seq(7, _ => Bucket(0, 0.0, 0.0));
    var i := 0;
    while i < |lines|
      invariant 0 <= i <= |lines|
      invariant |buckets| == 7
      invariant forall d: Weekday :: buckets[d] == BucketOf(lines[..i], d)
    {
      AddLineStep(lines[..i], lines[i], buckets);
      assert lines[..i + 1] == lines[..i] + [lines[i]];
      buckets := AddLine(buckets, lines[i]);
      i := i + 1;
    }
    assert lines[..i] == lines;
  }

  /** The weekday table computed in one pass over the joined rows: seven
      running buckets, then the non-empty buckets listed Monday first. It
      agrees with DailyStats on every input. */
  method DailyStatsOnePass(orders: seq<Order>, items: seq<OrderItem>) returns (rows: seq<DayStat>)
    ensures rows == DailyStats(orders, items)
  {
    var lines := InnerJoin(orders, items);
    var buckets := Accumulate(lines);
    rows := [];
    var d: nat := 0;
    while d < 7
      invariant d <= 7
      invariant rows == StatsBefore(lines, d)
    {
      var b := buckets[d];
      if b.count > 0 {
        var row := DayStat(d, b.count, b.sales, b.shipping, b.sales / b.count as real);
        assert row == StatFor(lines, d);
        rows := rows + [row];
      }
      d := d + 1;
    }
  }
}
