/** Cart.jsx and DashboardCart.jsx: the two cart pages compute the same summary
    (11 percent tax, flat shipping, no discount and no floor; Cart.jsx also
    shows a discount line that always reads "- Rp 0") and wire the same three
    buttons to the cart. */
module CartPages {
  import opened Seqs
  import opened CartContext
  import opened Checkout

  datatype CartSummary = CartSummary(tax: real, total: real)

  /** `taxAmount` and `finalTotal` of a cart page. */
  function SummaryOf(subtotal: real): (s: CartSummary)
    ensures s.tax == subtotal * 11.0 / 100.0
    ensures s.total == subtotal + SHIPPING_COST + s.tax
    ensures s.total == CheckoutTotals(subtotal, None).preDiscount
    ensures subtotal >= 0.0 ==> s.total >= SHIPPING_COST
  {
    var taxAmount := subtotal * TAX_RATE;
    CartSummary(taxAmount, subtotal + SHIPPING_COST + taxAmount)
  }

  /** For a real cart the page shows what the checkout charges without a promo. */
  lemma SummaryMatchesCheckout(subtotal: real)
    requires subtotal >= 0.0
    ensures SummaryOf(subtotal).total == CheckoutTotals(subtotal, None).finalTotal
  {
  }

  /** Unlike the checkout total, the page total has no floor. */
  lemma SummaryHasNoFloor()
    ensures SummaryOf(-100000.0).total < 0.0
    ensures CheckoutTotals(-100000.0, None).finalTotal == 0.0
  {
  }

  /** The "-" button: one unit less, which the cart ignores at quantity 1. */
  method DecreaseQuantity(cart: CartState, e: CartEntry)
    modifies cart
    ensures cart.items == QuantitySet(old(cart.items), e.product.id, e.size, e.quantity - 1)
    ensures e.quantity <= 1 ==> cart.items == old(cart.items)
    ensures old(cart.Valid()) ==> cart.Valid()
  {
    cart.UpdateQuantity(e.product.id, e.size, e.quantity - 1);
  }

  /** The "+" button: one unit more on a line of the cart. */
  method IncreaseQuantity(cart: CartState, e: CartEntry)
    modifies cart
    ensures cart.items == QuantitySet(old(cart.items), e.product.id, e.size, e.quantity + 1)
    ensures old(cart.Valid()) ==> cart.Valid()
    ensures old(cart.Valid()) && e in old(cart.items) ==> ItemCount(cart.items) == ItemCount(old(cart.items)) + 1
  {
    if cart.Valid() && e in cart.items {
      var i :| 0 <= i < |cart.items| && cart.items[i] == e;
      QuantitySetCount(cart.items, i, e.quantity + 1);
    }
    cart.UpdateQuantity(e.product.id, e.size, e.quantity + 1);
  }

  /** The delete button: the line's key leaves the cart. */
  method RemoveLine(cart: CartState, e: CartEntry)
    modifies cart
    ensures cart.items == RemovedFrom(old(cart.items), e.product.id, e.size)
    ensures e !in cart.items
    ensures old(cart.Valid()) ==> cart.Valid()
  {
    cart.RemoveFromCart(e.product.id, e.size);
  }
}
