/** The newest-first order of order lists that AdminOrders.jsx and
    DashboardProfile.jsx both apply to freshly fetched orders with
    `sort((a, b) => new Date(b.createdAt) - new Date(a.createdAt))`. */
module OrderLists {
  import opened Seqs
  import opened Models

  function CreatedAt(o: Order): real
  {
    o.createdAt as real
  }

  /** The orders, rearranged so that creation times never increase. */
  function NewestFirst(orders: seq<Order>): (r: seq<Order>)
    ensures multiset(r) == multiset(orders)
    ensures forall i, j :: 0 <= i < j < |r| ==> r[i].createdAt >= r[j].createdAt
  {
    var r := SortDesc(orders, CreatedAt);
    assert forall i, j :: 0 <= i < j < |r| ==> CreatedAt(r[i]) >= CreatedAt(r[j]);
    r
  }

  /** The first order of the sorted list is one of the most recent. */
  lemma NewestFirstHead(orders: seq<Order>)
    requires |orders| > 0
    ensures NewestFirst(orders)[0] in orders
    ensures forall o :: o in orders ==> o.createdAt <= NewestFirst(orders)[0].createdAt
  {
    var r := NewestFirst(orders);
    assert r[0] in multiset(r);
    forall o | o in orders
      ensures o.createdAt <= r[0].createdAt
    {
      assert o in multiset(r);
      var k :| 0 <= k < |r| && r[k] == o;
      if k > 0 {
        assert r[0].createdAt >= r[k].createdAt;
      }
    }
  }
}
