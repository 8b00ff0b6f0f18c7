/** Checkout.jsx: the older checkout page. Its totals and promo handlers are the
    shared ones; its payload sends the cart lines as they are. */
module CheckoutPage {
  import opened Seqs
  import opened CartContext
  import opened Checkout

  /** `handleCreateOrder`'s payload: the cart lines unchanged and the page's
      final total, which is the cart's price total with tax, shipping and the
      applied discount, floored at zero. */
  function OrderPayloadOf(userId: Option<string>, cart: seq<CartEntry>, form: ShippingForm,
                          applied: Option<AppliedPromo>): (p: OrderPayload<CartEntry>)
    ensures p.items == cart
    ensures p.totalAmount == CheckoutTotals(PriceTotal(cart), applied).finalTotal && p.totalAmount >= 0.0
    ensures applied.None? ==> p.promoCode.None? && p.discountAmount == 0.0
    ensures applied.Some? ==> p.promoCode == Some(applied.value.code)
    ensures p.status == PENDING
  {
    PayloadFor(userId, cart, PriceTotal(cart), form, applied)
  }
}
