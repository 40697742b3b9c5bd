/** Recency, frequency and monetary value per customer, over the completed
    orders joined to their items. */
module Rfm {
  import opened Records
  import opened Seqs
  import opened Merge

  /** The delivery status of a completed order, as the extract spells it. */
  const CompletedStatus: string := "Pesanan Selesai"

  datatype RfmRecord = RfmRecord(
    customerId: CustomerId,
    frequency: nat,
    monetary: real,
    recency: nat)

  function IsCompleted(o: Order): bool { o.deliveryStatus == CompletedStatus }

  function CompletedOrders(orders: seq<Order>): seq<Order> {
    Filter(orders, IsCompleted)
  }

  /** An order row that takes part in the analysis: completed, and with at
      least one item to join to. */
  predicate Counted(orders: seq<Order>, items: seq<OrderItem>, o: Order) {
    o in orders && IsCompleted(o) && HasItems(o, items)
  }

  /** A customer with at least one counted order. */
  predicate Buyer(orders: seq<Order>, items: seq<OrderItem>, c: CustomerId) {
    exists o :: o in orders && Counted(orders, items, o) && o.customerId == c
  }

  /** The distinct ids of a customer's counted orders. */
  function CountedOrderIds(orders: seq<Order>, items: seq<OrderItem>, c: CustomerId): set<OrderId> {
    set o | o in orders && IsCompleted(o) && HasItems(o, items) && o.customerId == c :: o.orderId
  }

  function ApprovedDate(o: Order): Date { DateOf(o.approvedAt) }
  function ApprovedAt(l: Line): Timestamp { l.order.approvedAt }
  function CustomerOf(l: Line): CustomerId { l.order.customerId }

  function IsCustomer(c: CustomerId): Line -> bool {
    l => CustomerOf(l) == c
  }

  /** The joined rows of one customer. */
  function LinesOf(lines: seq<Line>, c: CustomerId): seq<Line> {
    Filter(lines, IsCustomer(c))
  }

  /** The joined rows the analysis works on. */
  function CompletedLines(orders: seq<Order>, items: seq<OrderItem>): seq<Line> {
    InnerJoin(CompletedOrders(orders), items)
  }

  /** The reference date: the latest approval date over all completed
      orders, including those that have no items. */
  function RecentDate(orders: seq<Order>): (d: Date)
    requires |CompletedOrders(orders)| > 0
    ensures exists o :: o in orders && IsCompleted(o) && ApprovedDate(o) == d
    ensures forall o :: o in orders && IsCompleted(o) ==> ApprovedDate(o) <= d
  {
    MaxInt(CompletedOrders(orders), ApprovedDate)
  }

  function Abs(x: int): nat {
    if x < 0 then -x else x
  }

  lemma DateOfMonotone(a: Timestamp, b: Timestamp)
    requires a <= b
    ensures DateOf(a) <= DateOf(b)
  {
  }

  lemma CompletedLine(orders: seq<Order>, items: seq<OrderItem>, l: Line)
    ensures l in CompletedLines(orders, items) <==>
      l.order in orders && IsCompleted(l.order) && l.item in items && l.order.orderId == l.item.orderId
  {
  }

  lemma CustomerLine(orders: seq<Order>, items: seq<OrderItem>, c: CustomerId, l: Line)
    ensures l in LinesOf(CompletedLines(orders, items), c) <==>
      l.order in orders && IsCompleted(l.order) && l.item in items
      && l.order.orderId == l.item.orderId && l.order.customerId == c
  {
    CompletedLine(orders, items, l);
  }

  /** The distinct order ids among some joined rows. */
  function OrderIdsOf(lines: seq<Line>): set<OrderId> {
    set l | l in lines :: l.order.orderId
  }

  /** The record of one customer who has joined rows. */
  function RecordFor(lines: seq<Line>, c: CustomerId, recent: Date): RfmRecord
    requires |LinesOf(lines, c)| > 0
  {
    var mine := LinesOf(lines, c);
    var last := DateOf(LatestApproval(lines, c));
    RfmRecord(c, |OrderIdsOf(mine)|, Sum(mine, PriceOf), Abs(recent - last))
  }

  /** The customers of the joined rows, each once, in order of first appearance. */
  function Customers(lines: seq<Line>): (cs: seq<CustomerId>)
    ensures NoDuplicates(cs)
    ensures forall c :: c in cs <==> exists l :: l in lines && CustomerOf(l) == c
  {
    DistinctKeys(lines, CustomerOf)
  }

  lemma HasLines(lines: seq<Line>, c: CustomerId)
    requires exists l :: l in lines && CustomerOf(l) == c
    ensures |LinesOf(lines, c)| > 0
  {
    var l :| l in lines && CustomerOf(l) == c;
    assert IsCustomer(c)(l);
    assert l in LinesOf(lines, c);
  }

  lemma CustomerHasLines(lines: seq<Line>, cs: seq<CustomerId>, j: int)
    requires cs == Customers(lines) && 0 <= j < |cs|
    ensures |LinesOf(lines, cs[j])| > 0
  {
    assert cs[j] in cs;
    HasLines(lines, cs[j]);
  }

  lemma BuyerHasLine(orders: seq<Order>, items: seq<OrderItem>, c: CustomerId)
    ensures Buyer(orders, items, c) <==> exists l :: l in CompletedLines(orders, items) && CustomerOf(l) == c
  {
    if Buyer(orders, items, c) {
      var o :| o in orders && Counted(orders, items, o) && o.customerId == c;
      var it :| it in items && it.orderId == o.orderId;
      CompletedLine(orders, items, Line(o, it));
    }
    if l :| l in CompletedLines(orders, items) && CustomerOf(l) == c {
      CompletedLine(orders, items, l);
      assert Counted(orders, items, l.order);
    }
  }

  /** Frequency counts the customer's distinct completed orders that have items. */
  lemma FrequencyIsCountedOrders(orders: seq<Order>, items: seq<OrderItem>, c: CustomerId)
    ensures OrderIdsOf(LinesOf(CompletedLines(orders, items), c)) == CountedOrderIds(orders, items, c)
  {
    var mine := LinesOf(CompletedLines(orders, items), c);
    forall id | id in CountedOrderIds(orders, items, c)
      ensures id in OrderIdsOf(mine)
    {
      var o :| o in orders && IsCompleted(o) && HasItems(o, items) && o.customerId == c && o.orderId == id;
      var it :| it in items && it.orderId == o.orderId;
      CustomerLine(orders, items, c, Line(o, it));
    }
    forall l | l in mine
      ensures l.order.orderId in CountedOrderIds(orders, items, c)
    {
      CustomerLine(orders, items, c, l);
    }
  }

  /** The recency of a customer's record is the distance from the reference
      date to the customer's latest counted order: attained by one of them,
      and no larger than the distance to any of them. */
  ghost predicate IsRecency(orders: seq<Order>, items: seq<OrderItem>, c: CustomerId, r: nat)
    requires |CompletedOrders(orders)| > 0
  {
    && (exists o :: Counted(orders, items, o) && o.customerId == c && r == RecentDate(orders) - ApprovedDate(o))
    && (forall o :: Counted(orders, items, o) && o.customerId == c ==> r <= RecentDate(orders) - ApprovedDate(o))
  }

  /** The customer's latest approval time over their joined rows. */
  function LatestApproval(lines: seq<Line>, c: CustomerId): Timestamp
    requires |LinesOf(lines, c)| > 0
  {
    MaxInt(LinesOf(lines, c), ApprovedAt)
  }

  lemma LatestIsCounted(orders: seq<Order>, items: seq<OrderItem>, c: CustomerId) returns (o: Order)
    requires |LinesOf(CompletedLines(orders, items), c)| > 0
    ensures Counted(orders, items, o) && o.customerId == c
    ensures o.approvedAt == LatestApproval(CompletedLines(orders, items), c)
  {
    var mine := LinesOf(CompletedLines(orders, items), c);
    assert |mine| > 0;
    var m := MaxInt(mine, ApprovedAt);
    assert exists x :: x in mine && ApprovedAt(x) == m;
    var l :| l in mine && ApprovedAt(l) == m;
    CustomerLine(orders, items, c, l);
    o := l.order;
  }

  lemma LatestBounds(orders: seq<Order>, items: seq<OrderItem>, c: CustomerId, o: Order)
    requires Counted(orders, items, o) && o.customerId == c
    ensures |LinesOf(CompletedLines(orders, items), c)| > 0
    ensures o.approvedAt <= LatestApproval(CompletedLines(orders, items), c)
  {
    var it :| it in items && it.orderId == o.orderId;
    CustomerLine(orders, items, c, Line(o, it));
  }

  lemma CountedIsCompleted(orders: seq<Order>, items: seq<OrderItem>, o: Order)
    requires Counted(orders, items, o)
    ensures |CompletedOrders(orders)| > 0
    ensures ApprovedDate(o) <= RecentDate(orders)
  {
    assert o in CompletedOrders(orders);
  }

  /** Recency is zero exactly when one of the customer's counted orders was
      approved on the latest approval date of all completed orders. */
  lemma RecencyZero(orders: seq<Order>, items: seq<OrderItem>, c: CustomerId, r: nat)
    requires |CompletedOrders(orders)| > 0
    requires IsRecency(orders, items, c, r)
    ensures r == 0 <==> exists o :: Counted(orders, items, o) && o.customerId == c && ApprovedDate(o) == RecentDate(orders)
  {
    if o :| Counted(orders, items, o) && o.customerId == c && ApprovedDate(o) == RecentDate(orders) {
      assert r <= RecentDate(orders) - ApprovedDate(o);
    }
  }

  lemma RecencyOfRecord(orders: seq<Order>, items: seq<OrderItem>, c: CustomerId)
    requires |CompletedOrders(orders)| > 0
    requires |LinesOf(CompletedLines(orders, items), c)| > 0
    ensures IsRecency(orders, items, c, RecordFor(CompletedLines(orders, items), c, RecentDate(orders)).recency)
  {
    var lines := CompletedLines(orders, items);
    var recent := RecentDate(orders);
    var latest := LatestApproval(lines, c);
    var r := RecordFor(lines, c, recent).recency;
    var o0 := LatestIsCounted(orders, items, c);
    CountedIsCompleted(orders, items, o0);
    assert r == recent - ApprovedDate(o0);
    forall o | Counted(orders, items, o) && o.customerId == c
      ensures r <= recent - ApprovedDate(o)
    {
      LatestBounds(orders, items, c, o);
      DateOfMonotone(o.approvedAt, latest);
    }
  }

  lemma RecordFacts(orders: seq<Order>, items: seq<OrderItem>, c: CustomerId)
    requires |CompletedOrders(orders)| > 0
    requires Buyer(orders, items, c)
    ensures |LinesOf(CompletedLines(orders, items), c)| > 0
    ensures var r := RecordFor(CompletedLines(orders, items), c, RecentDate(orders));
      && r.customerId == c
      && r.frequency == |CountedOrderIds(orders, items, c)| >= 1
      && r.monetary == Sum(LinesOf(CompletedLines(orders, items), c), PriceOf)
      && IsRecency(orders, items, c, r.recency)
  {
    var lines := CompletedLines(orders, items);
    BuyerHasLine(orders, items, c);
    HasLines(lines, c);
    var mine := LinesOf(lines, c);
    FrequencyIsCountedOrders(orders, items, c);
    assert mine[0].order.orderId in OrderIdsOf(mine);
    RecencyOfRecord(orders, items, c);
  }

  /** The rows of the RFM table, in order of the customers' first joined row. */
  function RfmRows(orders: seq<Order>, items: seq<OrderItem>): seq<RfmRecord> {
    var lines := CompletedLines(orders, items);
    if lines == [] then []
    else
      CompletedLine(orders, items, lines[0]);
      assert lines[0].order in CompletedOrders(orders);
      var recent := RecentDate(orders);
      var cs := Customers(lines);
      seq(|cs|, j requires 0 <= j < |cs| => CustomerHasLines(lines, cs, j); RecordFor(lines, cs[j], recent))
  }

  lemma RfmRowsEmpty(orders: seq<Order>, items: seq<OrderItem>)
    requires CompletedLines(orders, items) == []
    ensures RfmRows(orders, items) == []
    ensures forall c :: !Buyer(orders, items, c)
  {
    forall c
      ensures !Buyer(orders, items, c)
    {
      BuyerHasLine(orders, items, c);
    }
  }

  lemma RfmRowsCustomers(orders: seq<Order>, items: seq<OrderItem>)
    requires CompletedLines(orders, items) != []
    ensures var cs := Customers(CompletedLines(orders, items));
      && |RfmRows(orders, items)| == |cs|
      && forall j :: 0 <= j < |cs| ==> Buyer(orders, items, cs[j]) && RfmRows(orders, items)[j].customerId == cs[j]
    ensures forall c :: Buyer(orders, items, c) ==> c in Customers(CompletedLines(orders, items))
  {
    var cs := Customers(CompletedLines(orders, items));
    forall c
      ensures c in cs <==> Buyer(orders, items, c)
    {
      BuyerHasLine(orders, items, c);
    }
  }

  lemma RfmRowsRecords(orders: seq<Order>, items: seq<OrderItem>, j: nat)
    requires CompletedLines(orders, items) != []
    requires j < |RfmRows(orders, items)|
    ensures |CompletedOrders(orders)| > 0
    ensures var r := RfmRows(orders, items)[j];
      && r.frequency == |CountedOrderIds(orders, items, r.customerId)| >= 1
      && r.monetary == Sum(LinesOf(CompletedLines(orders, items), r.customerId), PriceOf)
      && IsRecency(orders, items, r.customerId, r.recency)
  {
    RfmRowsCustomers(orders, items);
    var c := Customers(CompletedLines(orders, items))[j];
    var o :| o in orders && Counted(orders, items, o) && o.customerId == c;
    CountedIsCompleted(orders, items, o);
    RecordFacts(orders, items, c);
  }

  lemma RfmRowsAllRecords(orders: seq<Order>, items: seq<OrderItem>)
    requires CompletedLines(orders, items) != []
    ensures |CompletedOrders(orders)| > 0
    ensures var table := RfmRows(orders, items);
      forall j :: 0 <= j < |table| ==>
        && table[j].frequency == |CountedOrderIds(orders, items, table[j].customerId)| >= 1
        && table[j].monetary == Sum(LinesOf(CompletedLines(orders, items), table[j].customerId), PriceOf)
        && IsRecency(orders, items, table[j].customerId, table[j].recency)
  {
    var lines := CompletedLines(orders, items);
    CompletedLine(orders, items, lines[0]);
    assert lines[0].order in CompletedOrders(orders);
    var table := RfmRows(orders, items);
    forall j | 0 <= j < |table|
      ensures table[j].frequency == |CountedOrderIds(orders, items, table[j].customerId)| >= 1
      ensures table[j].monetary == Sum(LinesOf(CompletedLines(orders, items), table[j].customerId), PriceOf)
      ensures IsRecency(orders, items, table[j].customerId, table[j].recency)
    {
      RfmRowsRecords(orders, items, j);
    }
  }

  /** The RFM table: one record per customer with at least one completed order
      that has items, and no other customer. */
  function RfmAnalysis(orders: seq<Order>, items: seq<OrderItem>): (table: seq<RfmRecord>)
    ensures forall i, j :: 0 <= i < j < |table| ==> table[i].customerId != table[j].customerId
    ensures forall j :: 0 <= j < |table| ==> Buyer(orders, items, table[j].customerId)
    ensures forall c :: Buyer(orders, items, c) ==> exists j :: 0 <= j < |table| && table[j].customerId == c
    ensures forall j :: 0 <= j < |table| ==>
      table[j].frequency == |CountedOrderIds(orders, items, table[j].customerId)| >= 1
    ensures forall j :: 0 <= j < |table| ==>
      table[j].monetary == Sum(LinesOf(CompletedLines(orders, items), table[j].customerId), PriceOf)
    ensures |table| > 0 ==> |CompletedOrders(orders)| > 0
    ensures forall j :: 0 <= j < |table| ==> IsRecency(orders, items, table[j].customerId, table[j].recency)
  {
    var table := RfmRows(orders, items);
    if CompletedLines(orders, items) == [] then
      RfmRowsEmpty(orders, items);
      table
    else
      RfmRowsCustomers(orders, items);
      RfmRowsAllRecords(orders, items);
      table
  }
}
