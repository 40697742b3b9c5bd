/** The three delivery tables: how many distinct orders fall under each
    delivery status, each delivery time in days, and each delay status.
    Each table has exactly one entry per key present among the orders. */
module Delivery {
  import opened Records
  import opened Grouping
  import Seqs

  function IdOf(o: Order): OrderId { o.orderId }
  function StatusOf(o: Order): string { o.deliveryStatus }
  function HasDeliveryTime(o: Order): bool { o.deliveryTimeDays.Some? }
  /** The delivery time of an order that has one; the 0 is never grouped. */
  function DaysOf(o: Order): int { match o.deliveryTimeDays case Some(d) => d case None => 0 }
  function DelayOf(o: Order): string { o.delayStatus }

  /** Orders per delivery status, counting each order id once. */
  function DeliveryStatusCounts(orders: seq<Order>): (counts: map<string, nat>)
    ensures forall s :: s in counts <==> exists o :: o in orders && o.deliveryStatus == s
    ensures forall s :: s in counts ==>
      counts[s] == |set o | o in orders && o.deliveryStatus == s :: o.orderId| && counts[s] >= 1
  {
    assert forall s :: ValuesFor(orders, StatusOf, IdOf, s) == set o | o in orders && o.deliveryStatus == s :: o.orderId;
    CountDistinctBy(orders, StatusOf, IdOf)
  }

  lemma DeliveredGroups(orders: seq<Order>, delivered: seq<Order>)
    requires delivered == Seqs.Filter(orders, HasDeliveryTime)
    ensures forall d ::
      (exists o :: o in delivered && DaysOf(o) == d) <==> (exists o :: o in orders && o.deliveryTimeDays == Some(d))
    ensures forall d ::
      ValuesFor(delivered, DaysOf, IdOf, d) == (set o | o in orders && o.deliveryTimeDays == Some(d) :: o.orderId)
  {
  }

  /** Orders per delivery time in days. Orders whose delivery time is missing
      form no group, as a group-by drops missing keys. */
  function DeliveryTimeCounts(orders: seq<Order>): (counts: map<int, nat>)
    ensures forall d :: d in counts <==> exists o :: o in orders && o.deliveryTimeDays == Some(d)
    ensures forall d :: d in counts ==>
      counts[d] == |set o | o in orders && o.deliveryTimeDays == Some(d) :: o.orderId| && counts[d] >= 1
  {
    var delivered := Seqs.Filter(orders, HasDeliveryTime);
    DeliveredGroups(orders, delivered);
    CountDistinctBy(delivered, DaysOf, IdOf)
  }

  /** Orders per delay status, counting each order id once. */
  function DelayCounts(orders: seq<Order>): (counts: map<string, nat>)
    ensures forall s :: s in counts <==> exists o :: o in orders && o.delayStatus == s
    ensures forall s :: s in counts ==>
      counts[s] == |set o | o in orders && o.delayStatus == s :: o.orderId| && counts[s] >= 1
  {
    assert forall s :: ValuesFor(orders, DelayOf, IdOf, s) == set o | o in orders && o.delayStatus == s :: o.orderId;
    CountDistinctBy(orders, DelayOf, IdOf)
  }
}
