/** The rules the two checkout pages (Checkout.jsx and DashboardCheckout.jsx)
    share, written identically in both: the order totals, the promo-code form
    state with its apply and remove handlers, and the shape of the order
    payload. Money is exact: the source's floating-point `0.11` is the real
    11/100 here. */
module Checkout {
  import opened Seqs
  import opened Text

  const SHIPPING_COST: real := 25000.0
  const TAX_RATE: real := 0.11
  const PENDING: string := "Pending"
  const INVALID_CODE: string := "Kode promo tidak valid"

  /** `appliedPromo` once a validation succeeded (its `details` are not kept). */
  datatype AppliedPromo = AppliedPromo(code: string, discountAmount: real)

  datatype Totals = Totals(tax: real, preDiscount: real, discount: real, finalTotal: real)

  /** The totals, in the source's order: tax on the subtotal before any
      discount, then shipping and tax added, then the discount of the applied
      promo (none without one) taken off and the result floored at zero. */
  function CheckoutTotals(subtotal: real, applied: Option<AppliedPromo>): (t: Totals)
    ensures t.tax == subtotal * 11.0 / 100.0
    ensures t.preDiscount == subtotal + SHIPPING_COST + t.tax
    ensures applied.None? ==> t.discount == 0.0
    ensures applied.Some? ==> t.discount == applied.value.discountAmount
    ensures t.finalTotal >= 0.0
    ensures t.discount >= t.preDiscount ==> t.finalTotal == 0.0
    ensures t.discount < t.preDiscount ==> t.finalTotal == t.preDiscount - t.discount
  {
    var taxAmount := subtotal * TAX_RATE;
    var preDiscountTotal := subtotal + SHIPPING_COST + taxAmount;
    var discountAmount := if applied.Some? then applied.value.discountAmount else 0.0;
    var finalTotal := if 0.0 >= preDiscountTotal - discountAmount then 0.0 else preDiscountTotal - discountAmount;
    Totals(taxAmount, preDiscountTotal, discountAmount, finalTotal)
  }

  /** Without a promo the final total is the subtotal with 11 percent tax and
      shipping added, for any non-negative subtotal; 150000 gives 191500. */
  lemma NoPromoTotal(subtotal: real)
    requires subtotal >= 0.0
    ensures CheckoutTotals(subtotal, None).finalTotal == subtotal * 111.0 / 100.0 + 25000.0
    ensures CheckoutTotals(150000.0, None).finalTotal == 191500.0
  {
  }

  /** The promo changes neither the tax nor the pre-discount total. */
  lemma TaxIgnoresPromo(subtotal: real, a: Option<AppliedPromo>, b: Option<AppliedPromo>)
    ensures CheckoutTotals(subtotal, a).tax == CheckoutTotals(subtotal, b).tax
    ensures CheckoutTotals(subtotal, a).preDiscount == CheckoutTotals(subtotal, b).preDiscount
  {
  }

  /** A larger discount never gives a larger final total, and with a
      non-negative discount the final total is at most the pre-discount one. */
  lemma DiscountLowersTotal(subtotal: real, code: string, d1: real, d2: real)
    requires d1 <= d2
    ensures CheckoutTotals(subtotal, Some(AppliedPromo(code, d2))).finalTotal
         <= CheckoutTotals(subtotal, Some(AppliedPromo(code, d1))).finalTotal
    ensures subtotal >= 0.0 && d1 >= 0.0 ==>
      CheckoutTotals(subtotal, Some(AppliedPromo(code, d1))).finalTotal <= CheckoutTotals(subtotal, None).finalTotal
  {
  }

  // ---------------------------------------------------------------------------
  // The promo form
  // ---------------------------------------------------------------------------

  /** What the page posts to the validate endpoint. */
  datatype PromoRequest = PromoRequest(code: string, totalAmount: real)

  /** How that request ends, as far as the page can see: a reply carrying a
      discount, or a failure carrying the server's message if any. */
  datatype ValidateReply = Accepted(discountAmount: real) | Rejected(message: Option<string>)

  /** `error.response?.data?.message || "Kode promo tidak valid"`. */
  function ErrorText(message: Option<string>): (r: string)
    ensures r != ""
    ensures message.Some? && message.value != "" ==> r == message.value
  {
    if message.Some? && message.value != "" then message.value else INVALID_CODE
  }

  /** The promo state of a checkout page: the code typed, the applied promo
      and the error shown. The loading flag, which is set and cleared within
      one handler, is not modelled. */
  class PromoForm {
    var promoCode: string
    var appliedPromo: Option<AppliedPromo>
    var promoError: string

    constructor ()
      ensures promoCode == "" && appliedPromo.None? && promoError == ""
    {
      promoCode := "";
      appliedPromo := None;
      promoError := "";
    }

    /** The input's `onChange`: the typed text is upper-cased and the error cleared. */
    method OnCodeInput(input: string)
      modifies this
      ensures promoCode == ToUpper(input) && promoError == "" && appliedPromo == old(appliedPromo)
      ensures forall i :: 0 <= i < |promoCode| ==> !('a' <= promoCode[i] <= 'z')
    {
      promoCode := ToUpper(input);
      promoError := "";
    }

    /** `handleApplyPromo`, with the server's answer as the parameter `reply`.
        A blank code sends nothing and changes nothing; `!promoCode.trim()`
        holds exactly for an all-whitespace code (`TrimEmptyIffBlank`).
        Otherwise the code and the cart subtotal are posted; an accepted reply
        applies the promo under the typed code, a failure clears any applied
        promo and shows the message. */
    method ApplyPromo(subtotal: real, reply: ValidateReply) returns (request: Option<PromoRequest>)
      modifies this
      ensures request.None? <==> IsBlank(old(promoCode))
      ensures request.None? ==>
        promoCode == old(promoCode) && appliedPromo == old(appliedPromo) && promoError == old(promoError)
      ensures request.Some? ==> request.value == PromoRequest(old(promoCode), subtotal) && promoCode == old(promoCode)
      ensures request.Some? && reply.Accepted? ==>
        appliedPromo == Some(AppliedPromo(old(promoCode), reply.discountAmount)) && promoError == ""
      ensures request.Some? && reply.Rejected? ==>
        appliedPromo.None? && promoError == ErrorText(reply.message)
    {
      var code := promoCode;
      if IsBlank(code) {
        return None;
      }
      promoError := "";
      request := Some(PromoRequest(code, subtotal));
      if reply.Accepted? {
        appliedPromo := Some(AppliedPromo(code, reply.discountAmount));
      } else {
        appliedPromo := None;
        promoError := ErrorText(reply.message);
      }
    }

    /** `handleRemovePromo`: back to the initial state, so the discount is zero. */
    method RemovePromo()
      modifies this
      ensures promoCode == "" && appliedPromo.None? && promoError == ""
    {
      appliedPromo := None;
      promoCode := "";
      promoError := "";
    }
  }

  // ---------------------------------------------------------------------------
  // The order payload
  // ---------------------------------------------------------------------------

  /** The shipping form's three fields. */
  datatype ShippingForm = ShippingForm(customerName: string, shippingAddress: string, phoneNumber: string)

  /** The object posted to create an order; the two pages differ in the
      item type. */
  datatype OrderPayload<I> = OrderPayload(
    userId: Option<string>,
    items: seq<I>,
    totalAmount: real,
    customerName: string,
    shippingAddress: string,
    phoneNumber: string,
    status: string,
    promoCode: Option<string>,
    discountAmount: real)

  /** Both pages build the payload around the page's totals in the same way. */
  function PayloadFor<I>(userId: Option<string>, items: seq<I>, subtotal: real, form: ShippingForm,
                         applied: Option<AppliedPromo>): (p: OrderPayload<I>)
    ensures p.items == items && p.userId == userId
    ensures p.totalAmount == CheckoutTotals(subtotal, applied).finalTotal && p.totalAmount >= 0.0
    ensures p.discountAmount == CheckoutTotals(subtotal, applied).discount
    ensures p.promoCode.None? <==> applied.None?
    ensures applied.Some? ==> p.promoCode == Some(applied.value.code)
    ensures p.status == PENDING
    ensures (p.customerName, p.shippingAddress, p.phoneNumber) == (form.customerName, form.shippingAddress, form.phoneNumber)
  {
    var totals := CheckoutTotals(subtotal, applied);
    OrderPayload(userId, items, totals.finalTotal, form.customerName, form.shippingAddress, form.phoneNumber,
                 PENDING, if applied.Some? then Some(applied.value.code) else None, totals.discount)
  }
}
