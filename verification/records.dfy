/** The rows the dashboard reads from its flat-file extracts, after parsing.
    Identifiers are strings, money is an exact real, and every timestamp is a
    whole number of seconds since the epoch. */
module Records {

  datatype Option<+T> = None | Some(value: T)

  type OrderId = string
  type CustomerId = string

  /** Seconds since the epoch. */
  type Timestamp = int

  /** A calendar day, counted from the epoch. */
  type Date = int

  const SecondsPerDay: int := 86400

  /** The calendar day of a timestamp: the time of day is discarded.
      Dafny's division rounds towards minus infinity for a positive divisor,
      as a calendar does for instants before the epoch. */
  function DateOf(t: Timestamp): (d: Date)
    ensures d * SecondsPerDay <= t < (d + 1) * SecondsPerDay
  {
    t / SecondsPerDay
  }

  /** The first instant of a calendar day. */
  function StartOfDay(d: Date): (t: Timestamp)
    ensures DateOf(t) == d
  {
    d * SecondsPerDay
  }

  /** Monday is 0 and Sunday is 6, as pandas numbers days of the week. */
  type Weekday = d: nat | d < 7

  /** The day names, in the order the weekday table lists them. */
  const DayNames: seq<string> :=
    ["Monday", "Tuesday", "Wednesday", "Thursday", "Friday", "Saturday", "Sunday"]

  function DayName(d: Weekday): string { DayNames[d] }

  /** No two weekdays share a name, so grouping rows by day name groups
      them by weekday. */
  lemma DayNamesDistinct(a: Weekday, b: Weekday)
    ensures DayName(a) == DayName(b) <==> a == b
  {
  }

  /** One order row: the columns of the orders extracts that the aggregations read.
      The delivery time is missing for orders that were never delivered. */
  datatype Order = Order(
    orderId: OrderId,
    customerId: CustomerId,
    deliveryStatus: string,
    delayStatus: string,
    deliveryTimeDays: Option<int>,
    purchaseWeekday: Weekday,
    approvedAt: Timestamp)

  /** One order line: many rows share an order id. */
  datatype OrderItem = OrderItem(
    orderId: OrderId,
    orderItemId: int,
    price: real,
    freightValue: real)

  /** One row of the denormalised product extract: an order line with its
      product category, review score and approval time. The review score is
      missing for lines whose order was never reviewed. */
  datatype ProductRow = ProductRow(
    orderId: OrderId,
    orderItemId: int,
    price: real,
    reviewScore: Option<real>,
    approvedAt: Timestamp,
    category: string)
}
