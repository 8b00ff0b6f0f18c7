/** DashboardProfile.jsx: the customer's overview. The user's orders are
    sorted newest first (see OrderLists); the page counts the orders still
    under way, shows the most recent one and lists at most five. */
module DashboardProfile {
  import opened Seqs
  import opened Models
  import OrderLists

  const RECENT_COUNT: nat := 5

  /** The statuses the page treats as finished. */
  const FINISHED: seq<string> := ["Selesai", "Dibatalkan", "Delivered"]

  /** The statuses the admin page sets that end an order (AdminOrders.jsx:155-156). */
  const COMPLETED: string := "Completed"
  const CANCELLED: string := "Cancelled"

  // ---------------------------------------------------------------------------
  // Active orders, as written
  // ---------------------------------------------------------------------------

  predicate IsActive(o: Order)
  {
    o.status !in FINISHED
  }

  /** `orders.filter(o => !['Selesai', 'Dibatalkan', 'Delivered'].includes(o.status)).length`. */
  function ActiveOrders(orders: seq<Order>): (n: nat)
    ensures n <= |orders|
    ensures n == |orders| <==> forall i :: 0 <= i < |orders| ==> IsActive(orders[i])
  {
    FilterKeepsAllIff(orders, IsActive);
    |Filter(orders, IsActive)|
  }

  /** Only the page's own three status names end an order, so an order the
      admin marked Completed or Cancelled is counted as active. */
  lemma EndedOrdersCountAsActive(o: Order)
    requires o.status == COMPLETED || o.status == CANCELLED
    ensures ActiveOrders([o]) == 1
  {
    assert IsActive(o);
  }

  // ---------------------------------------------------------------------------
  // Active orders, as evidently intended
  // ---------------------------------------------------------------------------

  /** Still under way: finished in neither naming, neither one of the page's three
      statuses nor Completed or Cancelled. */
  predicate IsOpen(o: Order)
  {
    o.status !in FINISHED && o.status != COMPLETED && o.status != CANCELLED
  }

  function OpenOrders(orders: seq<Order>): (n: nat)
    ensures n <= ActiveOrders(orders) <= |orders|
  {
    OpenBelowActive(orders);
    |Filter(orders, IsOpen)|
  }

  lemma {:induction false} OpenBelowActive(orders: seq<Order>)
    ensures |Filter(orders, IsOpen)| <= |Filter(orders, IsActive)|
  {
    if |orders| > 0 {
      OpenBelowActive(orders[..|orders| - 1]);
    }
  }

  /** A completed or cancelled order never counts as open, wherever it stands. */
  lemma EndedOrdersNotOpen(before: seq<Order>, o: Order, after: seq<Order>)
    requires o.status == COMPLETED || o.status == CANCELLED
    ensures OpenOrders(before + [o] + after) == OpenOrders(before + after)
  {
    FilterSkips(before, o, after, IsOpen);
  }

  // ---------------------------------------------------------------------------
  // The most recent orders
  // ---------------------------------------------------------------------------

  /** `orders.length > 0 ? orders[0] : null`. */
  function LastOrder(orders: seq<Order>): (r: Option<Order>)
    ensures r.None? <==> |orders| == 0
    ensures r.Some? ==> r.value == orders[0]
  {
    if |orders| > 0 then Some(orders[0]) else None
  }

  /** Over the sorted list, the last order is the most recent of the user's orders. */
  lemma LastOrderIsNewest(orders: seq<Order>)
    ensures LastOrder(OrderLists.NewestFirst(orders)).None? <==> |orders| == 0
    ensures LastOrder(OrderLists.NewestFirst(orders)).Some? ==>
      LastOrder(OrderLists.NewestFirst(orders)).value in orders &&
      forall o :: o in orders ==> o.createdAt <= LastOrder(OrderLists.NewestFirst(orders)).value.createdAt
  {
    var sorted := OrderLists.NewestFirst(orders);
    assert |sorted| == |multiset(sorted)| == |multiset(orders)| == |orders|;
    if |orders| > 0 {
      OrderLists.NewestFirstHead(orders);
    }
  }

  /** `orders.slice(0, 5)`: the history table's rows. */
  function RecentHistory(orders: seq<Order>): (r: seq<Order>)
    ensures |r| <= RECENT_COUNT
    ensures r == orders[..if |orders| < RECENT_COUNT then |orders| else RECENT_COUNT]
  {
    TakeIsPrefix(orders, RECENT_COUNT);
    JsSlice(orders, 0, RECENT_COUNT)
  }
}
