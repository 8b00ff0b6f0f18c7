/** OrdersController.cs: order creation with its one guard (a non-empty item
    list) and the status update with its not-found guard. */
module OrdersController {
  import opened Seqs
  import opened Models
  import opened Http
  import opened OrdersService

  const ITEMS_EMPTY: string := "Order items cannot be empty."

  /** `Post`: an order without items is refused and nothing is stored. Any other
      order is stored through the service, with the total and discount the
      client sent: nothing is recomputed from the lines. A null item list binds
      to the same refusal and is modelled as the empty one. */
  method Post(store: OrdersCollection, newOrder: Order, now: int, freshId: string) returns (r: Response<Order>)
    modifies store
    ensures |newOrder.items| == 0 ==> r == BadRequest(Some(ITEMS_EMPTY)) && store.orders == old(store.orders)
    ensures |newOrder.items| > 0 ==>
      r.Created? && store.orders == old(store.orders) + [r.body] &&
      r.body == newOrder.(createdAt := now, status := PENDING, id := InsertedId(newOrder.id, freshId))
    ensures |newOrder.items| > 0 ==>
      r.body.totalAmount == newOrder.totalAmount && r.body.discountAmount == newOrder.discountAmount &&
      r.body.items == newOrder.items && r.body.promoCode == newOrder.promoCode &&
      r.body.status == PENDING && r.body.createdAt == now
  {
    if |newOrder.items| == 0 {
      return BadRequest(Some(ITEMS_EMPTY));
    }
    var stored := store.Create(newOrder, now, freshId);
    r := Created(stored);
  }

  /** `UpdateStatus`: an unknown id is NotFound and changes nothing; otherwise
      the status is set to whatever string was sent, without a transition check. */
  method UpdateStatus(store: OrdersCollection, id: string, status: string) returns (r: Response<()>)
    modifies store
    ensures old(store.GetById(id)).None? ==> r == NotFound(None) && store.orders == old(store.orders)
    ensures old(store.GetById(id)).Some? ==>
      r == NoContent && store.orders == SetStatus(old(store.orders), id, status)
  {
    var order := store.GetById(id);
    if order.None? {
      return NotFound(None);
    }
    store.UpdateStatus(id, status);
    r := NoContent;
  }
}
