/** OrdersService.cs: the order collection (insert with server-stamped status
    and time, status update) and the sales statistics, a pure aggregation over
    the stored orders. The clock reading of `CreateAsync` is the parameter `now`. */
module OrdersService {
  import opened Seqs
  import opened Models
  import Cart

  const PENDING: string := "Pending"
  const CANCELLED: string := "Cancelled"
  const TOP_PRODUCT_COUNT: nat := 5

  // ---------------------------------------------------------------------------
  // Status update
  // ---------------------------------------------------------------------------

  /** `UpdateStatusAsync` on values: the first order with that id gets the new
      status; nothing else changes, and any status string is accepted. */
  function SetStatus(orders: seq<Order>, id: string, status: string): (r: seq<Order>)
    ensures |r| == |orders|
    ensures FirstIndex(orders, OrderId, Some(id)).None? ==> r == orders
    ensures FirstIndex(orders, OrderId, Some(id)).Some? ==>
      var i := FirstIndex(orders, OrderId, Some(id)).value;
      r[i] == orders[i].(status := status) &&
      forall j :: 0 <= j < |orders| && j != i ==> r[j] == orders[j]
  {
    match FirstIndex(orders, OrderId, Some(id))
    case None => orders
    case Some(i) => orders[i := orders[i].(status := status)]
  }

  // ---------------------------------------------------------------------------
  // Sales statistics
  // ---------------------------------------------------------------------------

  predicate IsCounted(o: Order)
  {
    o.status != CANCELLED
  }

  /** `orders.Where(o => o.Status != "Cancelled")`. */
  function ValidOrders(orders: seq<Order>): seq<Order>
  {
    Filter(orders, IsCounted)
  }

  function OrderTotal(o: Order): real
  {
    o.totalAmount
  }

  function OrderUserId(o: Order): Option<string>
  {
    o.userId
  }

  /** `Select(o => o.UserId).Distinct()`, as a set; a missing user id is one value. */
  function UserIds(orders: seq<Order>): (r: set<Option<string>>)
    ensures |r| <= |orders|
    ensures forall j :: 0 <= j < |orders| ==> orders[j].userId in r
    ensures forall u :: u in r ==> exists j :: 0 <= j < |orders| && orders[j].userId == u
  {
    var r := KeySet(orders, OrderUserId);
    assert forall j :: 0 <= j < |orders| ==> OrderUserId(orders[j]) == orders[j].userId;
    r
  }

  /** `SelectMany(o => o.Items)`: every order's lines, order after order. */
  function AllItems(orders: seq<Order>): seq<CartItem>
  {
    if |orders| == 0 then [] else AllItems(orders[..|orders| - 1]) + orders[|orders| - 1].items
  }

  function Quantity(i: CartItem): int
  {
    i.quantity
  }

  function Revenue(t: TopProduct): real
  {
    t.revenue
  }

  function GroupName(t: TopProduct): string
  {
    t.name
  }

  /** The lines of one product. */
  function NamedIs(name: string): CartItem -> bool
  {
    (i: CartItem) => i.productName == name
  }

  /** One step of `GroupBy(i => i.ProductName)` with its two sums: the line is
      added to the group of its name, or opens a new group at the end. */
  function AddToGroups(groups: seq<TopProduct>, item: CartItem): (r: seq<TopProduct>)
    ensures FirstIndex(groups, GroupName, item.productName).None? ==>
      r == groups + [TopProduct(item.productName, item.quantity, Cart.LineTotal(item))]
    ensures FirstIndex(groups, GroupName, item.productName).Some? ==>
      var k := FirstIndex(groups, GroupName, item.productName).value;
      |r| == |groups| && r[k].name == groups[k].name &&
      r[k].sales == groups[k].sales + item.quantity &&
      r[k].revenue == groups[k].revenue + Cart.LineTotal(item) &&
      forall j :: 0 <= j < |groups| && j != k ==> r[j] == groups[j]
    ensures |groups| <= |r| <= |groups| + 1
    ensures forall k :: 0 <= k < |groups| ==> r[k].name == groups[k].name
    ensures |r| == |groups| + 1 ==> r[|groups|].name == item.productName
  {
    match FirstIndex(groups, GroupName, item.productName)
    case None => groups + [TopProduct(item.productName, item.quantity, Cart.LineTotal(item))]
    case Some(k) =>
      groups[k := TopProduct(item.productName, groups[k].sales + item.quantity,
                             groups[k].revenue + Cart.LineTotal(item))]
  }

  /** The groups of `items` by product name, in order of each name's first appearance. */
  function Groups(items: seq<CartItem>): seq<TopProduct>
  {
    if |items| == 0 then [] else AddToGroups(Groups(items[..|items| - 1]), items[|items| - 1])
  }

  /** No two groups share a name. */
  ghost predicate DistinctNames(groups: seq<TopProduct>)
  {
    forall j, k :: 0 <= j < k < |groups| ==> groups[j].name != groups[k].name
  }

  lemma {:induction false} GroupsDistinct(items: seq<CartItem>)
    ensures DistinctNames(Groups(items))
  {
    if |items| > 0 {
      var front, item := items[..|items| - 1], items[|items| - 1];
      var groups := Groups(front);
      GroupsDistinct(front);
      var r := Groups(items);
      if FirstIndex(groups, GroupName, item.productName).None? {
        forall j, k | 0 <= j < k < |r| ensures r[j].name != r[k].name {
          if k == |groups| {
            assert GroupName(groups[j]) != item.productName;
          }
        }
      }
    }
  }

  /** Every group's name is the name of some line. */
  lemma {:induction false} GroupsFromItems(items: seq<CartItem>)
    ensures forall k :: 0 <= k < |Groups(items)| ==>
      exists i :: 0 <= i < |items| && items[i].productName == Groups(items)[k].name
  {
    if |items| > 0 {
      var front, item := items[..|items| - 1], items[|items| - 1];
      var groups := Groups(front);
      GroupsFromItems(front);
      var r := Groups(items);
      assert r == AddToGroups(groups, item);
      forall k | 0 <= k < |r| ensures exists i :: 0 <= i < |items| && items[i].productName == r[k].name {
        if k < |groups| {
          var i :| 0 <= i < |front| && front[i].productName == groups[k].name;
          assert items[i] == front[i];
        } else {
          assert items[|items| - 1].productName == r[k].name;
        }
      }
    } else {
      assert Groups(items) == [];
    }
  }

  /** Some group is named `name`. */
  ghost predicate HasGroup(groups: seq<TopProduct>, name: string)
  {
    exists k :: 0 <= k < |groups| && groups[k].name == name
  }

  lemma AddedItemHasGroup(groups: seq<TopProduct>, item: CartItem)
    ensures HasGroup(AddToGroups(groups, item), item.productName)
  {
    var r := AddToGroups(groups, item);
    var first := FirstIndex(groups, GroupName, item.productName);
    if first.Some? {
      assert r[first.value].name == item.productName;
    } else {
      assert r[|groups|].name == item.productName;
    }
  }

  /** Every line's name has a group. */
  lemma {:induction false} ItemsHaveGroups(items: seq<CartItem>)
    ensures forall i :: 0 <= i < |items| ==> HasGroup(Groups(items), items[i].productName)
  {
    if |items| > 0 {
      var front, item := items[..|items| - 1], items[|items| - 1];
      var groups := Groups(front);
      ItemsHaveGroups(front);
      var r := Groups(items);
      assert r == AddToGroups(groups, item);
      forall i | 0 <= i < |items| ensures HasGroup(r, items[i].productName) {
        if i < |front| {
          assert items[i] == front[i];
          var k :| 0 <= k < |groups| && groups[k].name == front[i].productName;
          assert r[k].name == groups[k].name;
        } else {
          AddedItemHasGroup(groups, item);
        }
      }
    }
  }

  /** Adding one line to the lines of a name adds its quantity and its line total. */
  lemma FilterNamedStep(front: seq<CartItem>, item: CartItem, name: string)
    ensures SumInt(Filter(front + [item], NamedIs(name)), Quantity) ==
      SumInt(Filter(front, NamedIs(name)), Quantity) + (if item.productName == name then item.quantity else 0)
    ensures Sum(Filter(front + [item], NamedIs(name)), Cart.LineTotal) ==
      Sum(Filter(front, NamedIs(name)), Cart.LineTotal) + (if item.productName == name then Cart.LineTotal(item) else 0.0)
  {
    var p := NamedIs(name);
    assert (front + [item])[..|front|] == front;
    var fs := Filter(front, p);
    if p(item) {
      assert Filter(front + [item], p) == fs + [item];
      SumIntAppend(fs, [item], Quantity);
      SumAppend(fs, [item], Cart.LineTotal);
    } else {
      assert Filter(front + [item], p) == fs;
    }
  }

  /** With distinct names, a group is the first one carrying its name. */
  lemma FirstGroupNamed(groups: seq<TopProduct>, k: nat)
    requires DistinctNames(groups) && k < |groups|
    ensures FirstIndex(groups, GroupName, groups[k].name) == Some(k)
  {
    var first := FirstIndex(groups, GroupName, groups[k].name);
    assert GroupName(groups[k]) == groups[k].name;
    assert first.Some?;
    assert GroupName(groups[first.value]) == groups[k].name;
  }

  /** A name without a group has no lines. */
  lemma NoLinesWithoutGroup(items: seq<CartItem>, name: string)
    requires FirstIndex(Groups(items), GroupName, name).None?
    ensures Filter(items, NamedIs(name)) == []
  {
    var groups := Groups(items);
    ItemsHaveGroups(items);
    forall i | 0 <= i < |items| ensures !NamedIs(name)(items[i]) {
      var k :| 0 <= k < |groups| && groups[k].name == items[i].productName;
      assert GroupName(groups[k]) != name;
    }
    FilterDropsAll(items, NamedIs(name));
  }

  /** The `k`-th group's `Sales` is the sum of its lines' quantities and its
      `Revenue` the sum of their quantity times price. */
  lemma {:induction false} GroupSumAt(items: seq<CartItem>, k: nat)
    requires k < |Groups(items)|
    ensures Groups(items)[k].sales == SumInt(Filter(items, NamedIs(Groups(items)[k].name)), Quantity)
    ensures Groups(items)[k].revenue == Sum(Filter(items, NamedIs(Groups(items)[k].name)), Cart.LineTotal)
  {
    var front, item := items[..|items| - 1], items[|items| - 1];
    var groups := Groups(front);
    var r := AddToGroups(groups, item);
    assert Groups(items) == r;
    var name := r[k].name;
    assert items == front + [item];
    FilterNamedStep(front, item, name);
    if k < |groups| {
      GroupSumAt(front, k);
      assert name == groups[k].name;
      if item.productName == name {
        GroupsDistinct(front);
        FirstGroupNamed(groups, k);
      } else {
        assert r[k] == groups[k];
      }
    } else {
      NoLinesWithoutGroup(front, name);
    }
  }

  /** `OrderByDescending(x => x.Revenue).Take(5)`. */
  function TopProducts(items: seq<CartItem>): (r: seq<TopProduct>)
    ensures |r| <= TOP_PRODUCT_COUNT
    ensures |r| == if |Groups(items)| < TOP_PRODUCT_COUNT then |Groups(items)| else TOP_PRODUCT_COUNT
    ensures SortedDesc(r, Revenue)
    ensures multiset(r) <= multiset(Groups(items))
  {
    var sorted := SortDesc(Groups(items), Revenue);
    assert |sorted| == |multiset(sorted)| == |multiset(Groups(items))| == |Groups(items)|;
    var n := if |sorted| < TOP_PRODUCT_COUNT then |sorted| else TOP_PRODUCT_COUNT;
    assert sorted == sorted[..n] + sorted[n..];
    assert multiset(sorted) == multiset(sorted[..n]) + multiset(sorted[n..]);
    sorted[..if |sorted| < TOP_PRODUCT_COUNT then |sorted| else TOP_PRODUCT_COUNT]
  }

  /** The top list is drawn from the groups, and any group left out earns no
      more than every product listed. */
  lemma {:induction false} TopProductsAreBest(items: seq<CartItem>)
    ensures forall t :: t in TopProducts(items) ==> t in Groups(items)
    ensures forall g, t :: g in Groups(items) && t in TopProducts(items) && g !in TopProducts(items) ==>
      g.revenue <= t.revenue
  {
    var groups := Groups(items);
    var sorted := SortDesc(groups, Revenue);
    var top := TopProducts(items);
    var n := |top|;
    assert top == sorted[..n];
    forall t | t in top ensures t in groups {
      assert t in multiset(sorted);
    }
    assert forall m :: 0 <= m < n ==> sorted[m] in top;
    forall g, t | g in groups && t in top && g !in top ensures g.revenue <= t.revenue {
      assert g in multiset(groups);
      var j :| 0 <= j < |sorted| && sorted[j] == g;
      var i :| 0 <= i < n && top[i] == t;
      assert n <= j;
      assert sorted[i] == t;
    }
  }

  /** `totalOrders > 0 ? totalRevenue / totalOrders : 0`. */
  function Average(total: real, count: int): (r: real)
    ensures count > 0 ==> r * count as real == total
    ensures count <= 0 ==> r == 0.0
  {
    if count > 0 then total / count as real else 0.0
  }

  /** `GetSalesStatsAsync`. Averages are exact here; `decimal` would round
      at its 28th significant digit. */
  function SalesStatsOf(orders: seq<Order>): (r: SalesStats)
    ensures 0 <= r.newCustomers <= r.totalOrders <= |orders|
    ensures r.totalOrders == |ValidOrders(orders)| && r.totalRevenue == Sum(ValidOrders(orders), OrderTotal)
    ensures r.totalOrders == 0 ==> r.totalRevenue == 0.0
    ensures r.averageOrderValue == Average(r.totalRevenue, r.totalOrders)
    ensures r.newCustomers == |UserIds(ValidOrders(orders))|
    ensures r.topProducts == TopProducts(AllItems(ValidOrders(orders)))
    ensures |r.topProducts| <= TOP_PRODUCT_COUNT && SortedDesc(r.topProducts, Revenue)
  {
    var valid := ValidOrders(orders);
    var totalRevenue := Sum(valid, OrderTotal);
    var totalOrders := |valid|;
    var avgOrderValue := Average(totalRevenue, totalOrders);
    var newCustomers := |UserIds(valid)|;
    SalesStats(totalRevenue, totalOrders, newCustomers, avgOrderValue, TopProducts(AllItems(valid)))
  }

  /** The statistics count revenue and orders over the orders not cancelled. */
  lemma {:induction false} StatsOverValidOrders(orders: seq<Order>)
    ensures SalesStatsOf(orders).totalRevenue == Sum(Filter(orders, IsCounted), OrderTotal)
    ensures SalesStatsOf(orders).totalOrders == |Filter(orders, IsCounted)|
    ensures forall o :: o in orders && o.status != CANCELLED ==> o in ValidOrders(orders)
    ensures forall o :: o in ValidOrders(orders) ==> o in orders && o.status != CANCELLED
  {
    forall o | true ensures o in ValidOrders(orders) <==> o in orders && IsCounted(o) {
      FilterMember(orders, IsCounted, o);
    }
  }

  /** A cancelled order contributes nothing to any statistic, wherever it stands. */
  lemma {:induction false} CancelledIgnored(before: seq<Order>, o: Order, after: seq<Order>)
    requires o.status == CANCELLED
    ensures SalesStatsOf(before + [o] + after) == SalesStatsOf(before + after)
  {
    FilterAppend(before + [o], after, IsCounted);
    FilterAppend(before, [o], IsCounted);
    FilterAppend(before, after, IsCounted);
    assert Filter([o], IsCounted) == [] by {
      assert [o][..0] == [];
    }
    assert ValidOrders(before + [o] + after) == ValidOrders(before + after);
  }

  // ---------------------------------------------------------------------------
  // The collection
  // ---------------------------------------------------------------------------

  /** The `Orders` collection, in insertion order. */
  class OrdersCollection {
    var orders: seq<Order>

    constructor (initial: seq<Order>)
      ensures orders == initial
    {
      orders := initial;
    }

    /** `GetAsync(id)`: the first order with that id. */
    function GetById(id: string): (r: Option<Order>)
      reads this
      ensures r.Some? <==> exists j :: 0 <= j < |orders| && orders[j].id == Some(id)
      ensures r.Some? ==> r.value in orders && r.value.id == Some(id)
    {
      Find(orders, OrderId, Some(id))
    }

    /** `CreateAsync`: the time and the "Pending" status are stamped over
        whatever the order carried; every other field is stored as given. */
    method Create(newOrder: Order, now: int, freshId: string) returns (stored: Order)
      modifies this
      ensures stored == newOrder.(createdAt := now, status := PENDING, id := InsertedId(newOrder.id, freshId))
      ensures orders == old(orders) + [stored]
    {
      stored := newOrder.(createdAt := now, status := PENDING);
      stored := stored.(id := InsertedId(stored.id, freshId));
      orders := orders + [stored];
    }

    /** `UpdateStatusAsync`. */
    method UpdateStatus(id: string, status: string)
      modifies this
      ensures orders == SetStatus(old(orders), id, status)
    {
      orders := SetStatus(orders, id, status);
    }

    /** `GetSalesStatsAsync` over the stored orders. */
    function Stats(): (r: SalesStats)
      reads this
      ensures r == SalesStatsOf(orders)
      ensures r.newCustomers <= r.totalOrders <= |orders|
      ensures |r.topProducts| <= TOP_PRODUCT_COUNT
    {
      SalesStatsOf(orders)
    }
  }
}
