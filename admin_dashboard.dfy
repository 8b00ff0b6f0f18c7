/** AdminDashboard.jsx: the admin's overview cards, computed on the client
    from the full order and product lists rather than from the server's sales
    statistics. */
module AdminDashboard {
  import opened Seqs
  import opened Models
  import OrdersService

  const RECENT_COUNT: nat := 5

  /** A response body: an array, or anything else. */
  datatype Body<T> = ArrayBody(values: seq<T>) | OtherBody

  /** `Array.isArray(data) ? data : []`. */
  function AsArray<T>(body: Body<T>): (r: seq<T>)
    ensures body.ArrayBody? ==> r == body.values
    ensures body.OtherBody? ==> r == []
  {
    if body.ArrayBody? then body.values else []
  }

  /** `orders.reduce((acc, order) => acc + (order.totalAmount || 0), 0)`. */
  function TotalRevenue(orders: seq<Order>): real
  {
    Sum(orders, OrdersService.OrderTotal)
  }

  function IsCancelled(o: Order): bool
  {
    o.status == OrdersService.CANCELLED
  }

  /** The card counts cancelled orders too: it is the server's revenue
      statistic plus the amounts of the cancelled orders. */
  lemma RevenueIncludesCancelled(orders: seq<Order>)
    ensures TotalRevenue(orders)
         == OrdersService.SalesStatsOf(orders).totalRevenue + Sum(Filter(orders, IsCancelled), OrdersService.OrderTotal)
  {
    SumFilterSplit(orders, OrdersService.OrderTotal, OrdersService.IsCounted, IsCancelled);
    OrdersService.StatsOverValidOrders(orders);
  }

  /** `order.items?.length || 1`: an order's lines, and 1 for an order without any. */
  function LinesOf(o: Order): (n: int)
    ensures n >= 1
    ensures |o.items| > 0 ==> n == |o.items|
  {
    if |o.items| > 0 then |o.items| else 1
  }

  /** `itemsSold`: lines summed over the orders, quantities ignored. */
  function ItemsSold(orders: seq<Order>): int
  {
    SumInt(orders, LinesOf)
  }

  /** Every order adds at least one to the count. */
  lemma ItemsSoldAtLeastOrders(orders: seq<Order>)
    ensures ItemsSold(orders) >= |orders|
  {
    SumIntBounds(orders, LinesOf, 1);
  }

  /** A single order of one line counts 1 however many units it holds, and an
      order without lines counts 1 as well. */
  lemma ItemsSoldCountsLines(o: Order)
    requires |o.items| <= 1
    ensures ItemsSold([o]) == 1
  {
    assert [o][..0] == [];
    assert SumInt([o], LinesOf) == SumInt([o][..0], LinesOf) + LinesOf(o);
  }

  datatype Stats = Stats(totalOrders: int, totalRevenue: real, totalProducts: int,
                         recentOrders: seq<Order>, itemsSold: int)

  /** The cards, from the two responses. */
  function StatsOf(ordersBody: Body<Order>, productsBody: Body<Product>): (s: Stats)
    ensures s.totalOrders == |AsArray(ordersBody)| && s.totalProducts == |AsArray(productsBody)|
    ensures s.totalRevenue == TotalRevenue(AsArray(ordersBody))
    ensures s.recentOrders == AsArray(ordersBody)[..if |AsArray(ordersBody)| < RECENT_COUNT then |AsArray(ordersBody)| else RECENT_COUNT]
    ensures |s.recentOrders| <= RECENT_COUNT
    ensures s.itemsSold == ItemsSold(AsArray(ordersBody)) && s.itemsSold >= s.totalOrders
    ensures ordersBody.OtherBody? ==> s.totalOrders == 0 && s.totalRevenue == 0.0 && s.itemsSold == 0 && s.recentOrders == []
  {
    var orders := AsArray(ordersBody);
    var products := AsArray(productsBody);
    TakeIsPrefix(orders, RECENT_COUNT);
    ItemsSoldAtLeastOrders(orders);
    Stats(|orders|, TotalRevenue(orders), |products|, JsSlice(orders, 0, RECENT_COUNT), ItemsSold(orders))
  }
}
