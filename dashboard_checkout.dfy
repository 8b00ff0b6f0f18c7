/** DashboardCheckout.jsx: what this page adds to the shared checkout rules,
    namely the payment timer's MM:SS text and the order payload whose items are
    rebuilt from the cart lines. The timer's ticking and the random
    virtual-account number are not modelled. */
module DashboardCheckout {
  import opened Seqs
  import opened Text
  import opened Models
  import opened Cart
  import opened CartContext
  import opened Checkout

  /** `n.toString().padStart(2, '0')`. */
  function TwoDigits(n: nat): string
  {
    PadStart(NatToString(n), 2, '0')
  }

  /** Below 100 that is exactly two digits, reading back as `n`. */
  lemma TwoDigitsValue(n: nat)
    requires n < 100
    ensures |TwoDigits(n)| == 2
    ensures forall i :: 0 <= i < 2 ==> '0' <= TwoDigits(n)[i] <= '9'
    ensures DigitsValue(TwoDigits(n)) == n
  {
    var s := NatToString(n);
    NatToStringValue(n);
    if |s| == 1 {
      assert TwoDigits(n) == "0" + s;
      LeadingZeroValue(s);
    } else {
      assert TwoDigits(n) == s;
    }
  }

  /** Below 6000 seconds the minutes have at most two digits. */
  lemma MinutesBelowHundred(seconds: nat)
    requires seconds < 6000
    ensures seconds / 60 < 100 && seconds % 60 < 60
  {
  }

  /** The parts of "MM:SS" are where they belong. */
  lemma ClockParts(mm: string, ss: string)
    requires |mm| == 2 && |ss| == 2
    ensures |mm + ":" + ss| == 5 && (mm + ":" + ss)[2] == ':'
    ensures (mm + ":" + ss)[..2] == mm && (mm + ":" + ss)[3..] == ss
  {
  }

  /** `formatTime`: whole minutes, a colon, then the remaining seconds, each
      padded to two digits. The timer starts at 30 * 60 and only counts down, so
      the argument is a natural number. */
  function FormatTime(seconds: nat): string
  {
    TwoDigits(seconds / 60) + ":" + TwoDigits(seconds % 60)
  }

  /** Below 100 minutes the text is "MM:SS" with the minutes and seconds
      reading back from its two halves. */
  lemma FormatTimeReadsBack(seconds: nat)
    requires seconds < 6000
    ensures |FormatTime(seconds)| == 5 && FormatTime(seconds)[2] == ':'
    ensures DigitsValue(FormatTime(seconds)[..2]) == seconds / 60
    ensures DigitsValue(FormatTime(seconds)[3..]) == seconds % 60
  {
    MinutesBelowHundred(seconds);
    TwoDigitsValue(seconds / 60);
    TwoDigitsValue(seconds % 60);
    ClockParts(TwoDigits(seconds / 60), TwoDigits(seconds % 60));
  }

  lemma TwoDigitsZero()
    ensures TwoDigits(0) == "00"
  {
    assert PadStart("00", 2, '0') == "00";
  }

  lemma TwoDigitsOne()
    ensures TwoDigits(1) == "01"
  {
    assert PadStart("01", 2, '0') == "01";
  }

  lemma TwoDigitsThirty()
    ensures TwoDigits(30) == "30"
  {
    assert NatToString(3) == "3";
    assert NatToString(30) == "30";
  }

  /** The timer's starting value reads "30:00" and one second before the end "00:01". */
  lemma FormatTimeExamples()
    ensures FormatTime(1800) == "30:00"
    ensures FormatTime(1) == "00:01"
  {
    TwoDigitsZero();
    TwoDigitsOne();
    TwoDigitsThirty();
    assert 1800 / 60 == 30 && 1800 % 60 == 0;
    assert 1 / 60 == 0 && 1 % 60 == 1;
  }

  /** One payload line from a cart line: `size || 'N/A'` for the size. */
  function PayloadItem(e: CartEntry): (r: CartItem)
    ensures r.productId == e.product.id && r.productName == e.product.name
    ensures r.price == e.product.price && r.quantity == e.quantity && r.imageUrl == e.product.imageUrl
    ensures r.size.Some? && r.size.value != ""
    ensures e.size != "" ==> r.size == Some(e.size)
  {
    CartItem(e.product.id, e.product.name, e.product.price, e.quantity, e.product.imageUrl,
             Some(if e.size == "" then "N/A" else e.size))
  }

  /** The payload lines cost what the cart does: each line's price times
      quantity is unchanged by the rebuilding. */
  lemma {:induction false} PayloadLinesTotal(cart: seq<CartEntry>)
    ensures Sum(Map(cart, PayloadItem), LineTotal) == PriceTotal(cart)
  {
    if |cart| > 0 {
      var n := |cart| - 1;
      assert Map(cart, PayloadItem)[..n] == Map(cart[..n], PayloadItem);
      PayloadLinesTotal(cart[..n]);
    }
  }

  /** `handleCreateOrder`'s payload: one line per cart line, in cart order, and
      the page's final total and discount. The server stores the first and
      never recomputes it from the lines. */
  function OrderPayloadOf(userId: Option<string>, cart: seq<CartEntry>, form: ShippingForm,
                          applied: Option<AppliedPromo>): (p: OrderPayload<CartItem>)
    ensures |p.items| == |cart|
    ensures forall i :: 0 <= i < |cart| ==> p.items[i] == PayloadItem(cart[i])
    ensures Sum(p.items, LineTotal) == PriceTotal(cart)
    ensures p.totalAmount == CheckoutTotals(PriceTotal(cart), applied).finalTotal && p.totalAmount >= 0.0
    ensures p.promoCode.None? <==> applied.None?
    ensures p.status == PENDING
  {
    PayloadLinesTotal(cart);
    PayloadFor(userId, Map(cart, PayloadItem), PriceTotal(cart), form, applied)
  }
}
