/** AdminOrders.jsx: the admin's order table. The fetched orders are shown
    newest first (see OrderLists), narrowed by a search text and a status
    filter, and each status is shown with a badge style. */
module AdminOrders {
  import opened Seqs
  import opened Models
  import opened Text

  const ALL: string := "All"
  const PENDING: string := "Pending"

  /** `getStatusBadge`'s table of styles. */
  const BADGES: map<string, string> := map[
    "Pending" := "bg-orange-100 text-orange-600 dark:bg-orange-900/30 dark:text-orange-400",
    "Processing" := "bg-blue-100 text-blue-600 dark:bg-blue-900/30 dark:text-blue-400",
    "Shipped" := "bg-purple-100 text-purple-600 dark:bg-purple-900/30 dark:text-purple-400",
    "Completed" := "bg-green-100 text-green-600 dark:bg-green-900/30 dark:text-green-400",
    "Cancelled" := "bg-red-100 text-red-600 dark:bg-red-900/30 dark:text-red-400"]

  /** `badges[status] || badges['Pending']`: every style in the table is a
      non-empty string, so the fallback applies exactly to statuses outside it. */
  function StatusBadge(status: string): (badge: string)
    ensures status in BADGES ==> badge == BADGES[status]
    ensures status !in BADGES ==> badge == BADGES[PENDING]
  {
    if status in BADGES && BADGES[status] != "" then BADGES[status] else BADGES[PENDING]
  }

  /** 'Paid', one of the statuses Order.cs lists, has no style of its own. */
  lemma PaidLooksPending()
    ensures StatusBadge("Paid") == StatusBadge(PENDING)
  {
    assert "Paid" !in BADGES;
  }

  /** An order's id as the search sees it; stored orders always carry one. */
  function IdText(o: Order): string
  {
    if o.id.Some? then o.id.value else ""
  }

  /** `matchesSearch`: the name and the id are compared case-insensitively,
      the phone number as typed. */
  predicate MatchesSearch(o: Order, searchTerm: string)
  {
    Contains(ToLower(o.customerName), ToLower(searchTerm))
    || Contains(ToLower(IdText(o)), ToLower(searchTerm))
    || Contains(o.phoneNumber, searchTerm)
  }

  /** `matchesFilter`. */
  predicate MatchesFilter(o: Order, filterStatus: string)
  {
    filterStatus == ALL || o.status == filterStatus
  }

  function Shown(searchTerm: string, filterStatus: string): Order -> bool
  {
    (o: Order) => MatchesSearch(o, searchTerm) && MatchesFilter(o, filterStatus)
  }

  /** `filteredOrders`: exactly the orders that match both, in table order. */
  function FilteredOrders(orders: seq<Order>, searchTerm: string, filterStatus: string): (r: seq<Order>)
    ensures |r| <= |orders|
    ensures forall o :: o in r <==> o in orders && MatchesSearch(o, searchTerm) && MatchesFilter(o, filterStatus)
  {
    FilterMemberAll(orders, Shown(searchTerm, filterStatus));
    Filter(orders, Shown(searchTerm, filterStatus))
  }

  /** With no search text and the filter 'All' every order is shown. */
  lemma ShowAll(orders: seq<Order>)
    ensures FilteredOrders(orders, "", ALL) == orders
  {
    forall i | 0 <= i < |orders|
      ensures Shown("", ALL)(orders[i])
    {
      ContainsEmpty(ToLower(orders[i].customerName));
    }
    FilterKeepsAll(orders, Shown("", ALL));
  }

  /** A filter other than 'All' shows only orders with exactly that status. */
  lemma FilterIsExactStatus(orders: seq<Order>, searchTerm: string, filterStatus: string)
    requires filterStatus != ALL
    ensures forall o :: o in FilteredOrders(orders, searchTerm, filterStatus) ==> o.status == filterStatus
  {
  }

  /** The table keeps its order: filtering a split list filters each part. */
  lemma FilteredKeepsOrder(a: seq<Order>, b: seq<Order>, searchTerm: string, filterStatus: string)
    ensures FilteredOrders(a + b, searchTerm, filterStatus)
         == FilteredOrders(a, searchTerm, filterStatus) + FilteredOrders(b, searchTerm, filterStatus)
  {
    FilterAppend(a, b, Shown(searchTerm, filterStatus));
  }
}
