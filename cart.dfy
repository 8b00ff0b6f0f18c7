/** Cart.cs: a stored cart and its computed `TotalPrice`, the sum of price times
    quantity over its items. */
module Cart {
  import opened Seqs
  import opened Models

  datatype Cart = Cart(id: Option<string>, userId: Option<string>, items: seq<CartItem>)

  /** What one line contributes: unit price times quantity. */
  function LineTotal(i: CartItem): real
  {
    i.price * i.quantity as real
  }

  /** `Items.Sum(i => i.Price * i.Quantity)`. */
  function TotalPrice(c: Cart): real
  {
    Sum(c.items, LineTotal)
  }

  /** A cart with no items costs nothing. */
  lemma EmptyCartTotal(id: Option<string>, userId: Option<string>)
    ensures TotalPrice(Cart(id, userId, [])) == 0.0
  {
  }

  /** Appending a line raises the total by exactly that line's price times quantity. */
  lemma AppendItemTotal(c: Cart, item: CartItem)
    ensures TotalPrice(c.(items := c.items + [item])) == TotalPrice(c) + item.price * item.quantity as real
  {
    SumAppend(c.items, [item], LineTotal);
  }

  /** The total does not depend on the order of the items. */
  lemma TotalOrderIndependent(c: Cart, d: Cart)
    requires multiset(c.items) == multiset(d.items)
    ensures TotalPrice(c) == TotalPrice(d)
  {
    SumPermutation(c.items, d.items, LineTotal);
  }

  /** With no negative price or quantity the total is not negative. */
  lemma TotalNonNegative(c: Cart)
    requires forall i :: 0 <= i < |c.items| ==> c.items[i].price >= 0.0 && c.items[i].quantity >= 0
    ensures TotalPrice(c) >= 0.0
  {
    SumNonNegative(c.items, LineTotal);
  }
}
