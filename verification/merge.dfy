/** The inner join of orders with their order lines on the order id: one
    joined row per (order, item) pair that share an id. Orders without items
    and items without an order drop out. */
module Merge {
  import opened Records
  import opened Seqs

  datatype Line = Line(order: Order, item: OrderItem)

  function PriceOf(l: Line): real { l.item.price }
  function FreightOf(l: Line): real { l.item.freightValue }

  /** The joined rows for one order, in item order. */
  function Matches(o: Order, items: seq<OrderItem>): (lines: seq<Line>)
    ensures forall l :: l in lines <==> l.order == o && l.item in items && l.item.orderId == o.orderId
  {
    if items == [] then []
    else
      SnocSplit(items);
      var it := items[|items| - 1];
      Matches(o, items[..|items| - 1]) + (if it.orderId == o.orderId then [Line(o, it)] else [])
  }

  /** All joined rows, grouped by order in order-row order. */
  function InnerJoin(orders: seq<Order>, items: seq<OrderItem>): (lines: seq<Line>)
    ensures forall l :: l in lines <==> l.order in orders && l.item in items && l.order.orderId == l.item.orderId
  {
    if orders == [] then []
    else
      SnocSplit(orders);
      InnerJoin(orders[..|orders| - 1], items) + Matches(orders[|orders| - 1], items)
  }

  /** An order survives the join exactly when some item carries its id. */
  predicate HasItems(o: Order, items: seq<OrderItem>) {
    exists it :: it in items && it.orderId == o.orderId
  }

  /** How often a row occurs in the join: once per copy of its order row
      times once per copy of its item row, and never when the ids differ. */
  function JoinMultiplicity(orders: seq<Order>, items: seq<OrderItem>, l: Line): nat {
    if l.order.orderId == l.item.orderId then multiset(orders)[l.order] * multiset(items)[l.item] else 0
  }

  lemma {:induction false} MatchesCount(o: Order, items: seq<OrderItem>, l: Line)
    ensures multiset(Matches(o, items))[l] ==
      if l.order == o && l.item.orderId == o.orderId then multiset(items)[l.item] else 0
  {
    if items != [] {
      var init, it := items[..|items| - 1], items[|items| - 1];
      SnocSplit(items);
      MatchesCount(o, init, l);
      assert multiset(items) == multiset(init) + multiset{it};
    }
  }

  lemma MultiplicityStep(init: seq<Order>, o: Order, items: seq<OrderItem>, l: Line)
    ensures JoinMultiplicity(init + [o], items, l) == JoinMultiplicity(init, items, l)
      + if l.order == o && l.item.orderId == o.orderId then multiset(items)[l.item] else 0
  {
    assert multiset(init + [o]) == multiset(init) + multiset{o};
    if l.order.orderId == l.item.orderId && l.order == o {
      var a := multiset(init)[l.order];
      var c := multiset(items)[l.item];
      assert (a + 1) * c == a * c + c;
    }
  }

  /** The join repeats each matching pair as often as its order row and its
      item row are repeated, as a relational inner join does. */
  lemma {:induction false} JoinCount(orders: seq<Order>, items: seq<OrderItem>, l: Line)
    ensures multiset(InnerJoin(orders, items))[l] == JoinMultiplicity(orders, items, l)
  {
    if orders != [] {
      var init, o := orders[..|orders| - 1], orders[|orders| - 1];
      SnocSplit(orders);
      JoinCount(init, items, l);
      MatchesCount(o, items, l);
      MultiplicityStep(init, o, items, l);
      assert multiset(InnerJoin(orders, items))[l]
          == multiset(InnerJoin(init, items))[l] + multiset(Matches(o, items))[l] by {
        assert InnerJoin(orders, items) == InnerJoin(init, items) + Matches(o, items);
      }
    }
  }
}
