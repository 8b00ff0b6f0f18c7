/** CartContext.jsx: the client's shopping cart. Its state is the list of cart
    lines that every operation replaces; a line is the product object spread
    together with a size and a quantity, and is keyed by (product id, size).
    The list is loaded from and saved to local storage, which is left out: the
    constructor takes the saved list. */
module CartContext {
  import opened Seqs
  import opened Models

  /** One cart line. A missing size is the empty string, so two lines without
      a size have equal sizes, as two `undefined` sizes compare equal. */
  datatype CartEntry = CartEntry(product: Product, size: string, quantity: int)

  /** The key lines are matched by: `item.id` and `item.size`. */
  function EntryKey(e: CartEntry): (string, string)
  {
    (e.product.id, e.size)
  }

  predicate Matches(e: CartEntry, productId: string, size: string)
  {
    EntryKey(e) == (productId, size)
  }

  function Quantity(e: CartEntry): int
  {
    e.quantity
  }

  function LinePrice(e: CartEntry): real
  {
    e.product.price * e.quantity as real
  }

  /** The invariant the operations keep: no two lines share a key and every
      quantity is at least one. */
  ghost predicate WellFormed(items: seq<CartEntry>)
  {
    (forall i, j :: 0 <= i < j < |items| ==> EntryKey(items[i]) != EntryKey(items[j])) &&
    (forall i :: 0 <= i < |items| ==> items[i].quantity >= 1)
  }

  // ---------------------------------------------------------------------------
  // The updaters, on the list
  // ---------------------------------------------------------------------------

  /** `addToCart`'s updater: when a line with the key exists, every such line
      gets one more unit; otherwise a line for the product with quantity 1 is
      appended. */
  function AddedTo(items: seq<CartEntry>, product: Product, size: string): (r: seq<CartEntry>)
    ensures (exists i :: 0 <= i < |items| && Matches(items[i], product.id, size)) ==>
      |r| == |items| &&
      forall i :: 0 <= i < |items| ==>
        r[i] == (if Matches(items[i], product.id, size) then items[i].(quantity := items[i].quantity + 1) else items[i])
    ensures (forall i :: 0 <= i < |items| ==> !Matches(items[i], product.id, size)) ==>
      r == items + [CartEntry(product, size, 1)]
  {
    if Find(items, EntryKey, (product.id, size)).Some? then
      Map(items, (e: CartEntry) => if Matches(e, product.id, size) then e.(quantity := e.quantity + 1) else e)
    else
      items + [CartEntry(product, size, 1)]
  }

  /** `removeFromCart`'s updater: keeps, in order, the lines without the key. */
  function RemovedFrom(items: seq<CartEntry>, productId: string, size: string): (r: seq<CartEntry>)
    ensures |r| <= |items|
    ensures forall e :: e in r <==> e in items && !Matches(e, productId, size)
  {
    FilterMemberAll(items, (e: CartEntry) => !Matches(e, productId, size));
    Filter(items, (e: CartEntry) => !Matches(e, productId, size))
  }

  /** `updateQuantity`'s updater: a quantity below one changes nothing;
      otherwise every line with the key gets exactly that quantity. */
  function QuantitySet(items: seq<CartEntry>, productId: string, size: string, quantity: int): (r: seq<CartEntry>)
    ensures quantity < 1 ==> r == items
    ensures |r| == |items|
    ensures quantity >= 1 ==>
      forall i :: 0 <= i < |items| ==>
        EntryKey(r[i]) == EntryKey(items[i]) &&
        (Matches(items[i], productId, size) ==> r[i] == items[i].(quantity := quantity)) &&
        (!Matches(items[i], productId, size) ==> r[i] == items[i])
  {
    if quantity < 1 then items
    else Map(items, (e: CartEntry) => if Matches(e, productId, size) then e.(quantity := quantity) else e)
  }

  /** `totalItems`: the number of units. */
  function ItemCount(items: seq<CartEntry>): int
  {
    SumInt(items, Quantity)
  }

  /** `totalPrice`: the sum of price times quantity. */
  function PriceTotal(items: seq<CartEntry>): real
  {
    Sum(items, LinePrice)
  }

  // ---------------------------------------------------------------------------
  // What the updaters keep
  // ---------------------------------------------------------------------------

  /** In a well-formed cart a key picks out at most one line. */
  lemma {:induction false} MatchUnique(items: seq<CartEntry>, i: nat, productId: string, size: string)
    requires WellFormed(items) && i < |items| && Matches(items[i], productId, size)
    ensures forall j :: 0 <= j < |items| && j != i ==> !Matches(items[j], productId, size)
  {
    forall j | 0 <= j < |items| && j != i
      ensures !Matches(items[j], productId, size)
    {
      if j < i {
        assert EntryKey(items[j]) != EntryKey(items[i]);
      } else {
        assert EntryKey(items[i]) != EntryKey(items[j]);
      }
    }
  }

  /** Adding keeps the cart well formed. */
  lemma {:induction false} AddKeepsWellFormed(items: seq<CartEntry>, product: Product, size: string)
    requires WellFormed(items)
    ensures WellFormed(AddedTo(items, product, size))
  {
    var r := AddedTo(items, product, size);
    if forall i :: 0 <= i < |items| ==> !Matches(items[i], product.id, size) {
      assert r == items + [CartEntry(product, size, 1)];
      forall i | 0 <= i < |items|
        ensures EntryKey(r[i]) != EntryKey(r[|items|])
      {
        assert !Matches(items[i], product.id, size);
      }
    } else {
      assert forall i :: 0 <= i < |items| ==> EntryKey(r[i]) == EntryKey(items[i]);
    }
  }

  /** In a well-formed cart, adding a present key is one update at its line. */
  lemma {:induction false} AddPresentIsUpdate(items: seq<CartEntry>, product: Product, size: string, i: nat)
    requires i < |items| && Matches(items[i], product.id, size)
    requires forall j :: 0 <= j < |items| && j != i ==> !Matches(items[j], product.id, size)
    ensures AddedTo(items, product, size) == items[i := items[i].(quantity := items[i].quantity + 1)]
  {
    var r := AddedTo(items, product, size);
    assert |r| == |items|;
    forall j | 0 <= j < |items|
      ensures r[j] == items[i := items[i].(quantity := items[i].quantity + 1)][j]
    {
    }
  }

  /** Adding an absent key raises the unit count by one and the price total
      by the product's price. */
  lemma {:induction false} AddAbsentTotals(items: seq<CartEntry>, product: Product, size: string)
    requires FirstIndex(items, EntryKey, (product.id, size)).None?
    ensures ItemCount(AddedTo(items, product, size)) == ItemCount(items) + 1
    ensures PriceTotal(AddedTo(items, product, size)) == PriceTotal(items) + product.price
  {
    var line := CartEntry(product, size, 1);
    assert AddedTo(items, product, size) == items + [line];
    SumIntAppend(items, [line], Quantity);
    SumAppend(items, [line], LinePrice);
    assert [line][..0] == [];
  }

  /** In a well-formed cart, adding the key of line `i` raises the unit count
      by one and the price total by that line's stored unit price. */
  lemma {:induction false} AddPresentTotals(items: seq<CartEntry>, product: Product, size: string, i: nat)
    requires WellFormed(items) && i < |items| && Matches(items[i], product.id, size)
    ensures ItemCount(AddedTo(items, product, size)) == ItemCount(items) + 1
    ensures PriceTotal(AddedTo(items, product, size)) == PriceTotal(items) + items[i].product.price
  {
    var bumped := items[i].(quantity := items[i].quantity + 1);
    MatchUnique(items, i, product.id, size);
    AddPresentIsUpdate(items, product, size, i);
    SumIntUpdate(items, i, bumped, Quantity);
    SumUpdate(items, i, bumped, LinePrice);
    LinePriceBump(items[i]);
  }

  /** One more unit costs one more unit price. */
  lemma LinePriceBump(e: CartEntry)
    ensures LinePrice(e.(quantity := e.quantity + 1)) == LinePrice(e) + e.product.price
  {
    assert (e.quantity + 1) as real == e.quantity as real + 1.0;
  }

  /** Adding raises the unit count by exactly one, and the price total by the
      unit price of the line that grew: the stored line's price when the key
      was present (the product passed in is then ignored), the product's price
      when it was not. */
  lemma {:induction false} AddRaisesTotals(items: seq<CartEntry>, product: Product, size: string)
    requires WellFormed(items)
    ensures ItemCount(AddedTo(items, product, size)) == ItemCount(items) + 1
    ensures Find(items, EntryKey, (product.id, size)).None? ==>
      PriceTotal(AddedTo(items, product, size)) == PriceTotal(items) + product.price
    ensures Find(items, EntryKey, (product.id, size)).Some? ==>
      PriceTotal(AddedTo(items, product, size)) ==
        PriceTotal(items) + Find(items, EntryKey, (product.id, size)).value.product.price
  {
    var k := FirstIndex(items, EntryKey, (product.id, size));
    if k.None? {
      AddAbsentTotals(items, product, size);
    } else {
      AddPresentTotals(items, product, size, k.value);
    }
  }

  /** Keeping a subsequence of a well-formed cart leaves it well formed. */
  lemma {:induction false} FilterKeepsWellFormed(items: seq<CartEntry>, p: CartEntry -> bool)
    requires WellFormed(items)
    ensures WellFormed(Filter(items, p))
  {
    if |items| > 0 {
      var n := |items| - 1;
      var front := items[..n];
      assert WellFormed(front);
      FilterKeepsWellFormed(front, p);
      var f := Filter(front, p);
      if p(items[n]) {
        forall k | 0 <= k < |f|
          ensures EntryKey(f[k]) != EntryKey(items[n])
        {
          FilterMember(front, p, f[k]);
          var j :| 0 <= j < n && front[j] == f[k];
          assert EntryKey(items[j]) != EntryKey(items[n]);
        }
      }
    }
  }

  /** Removing keeps the cart well formed. */
  lemma {:induction false} RemoveKeepsWellFormed(items: seq<CartEntry>, productId: string, size: string)
    requires WellFormed(items)
    ensures WellFormed(RemovedFrom(items, productId, size))
  {
    FilterKeepsWellFormed(items, (e: CartEntry) => !Matches(e, productId, size));
  }

  /** In a well-formed cart, removing a present key deletes exactly that line
      and keeps the order of the others. */
  lemma {:induction false} RemoveOneLine(items: seq<CartEntry>, i: nat)
    requires WellFormed(items) && i < |items|
    ensures RemovedFrom(items, items[i].product.id, items[i].size) == items[..i] + items[i + 1..]
  {
    var id, size := items[i].product.id, items[i].size;
    MatchUnique(items, i, id, size);
    FilterDropsOne(items, (e: CartEntry) => !Matches(e, id, size), i);
  }

  /** Removing an absent key changes nothing. */
  lemma {:induction false} RemoveAbsent(items: seq<CartEntry>, productId: string, size: string)
    requires forall i :: 0 <= i < |items| ==> !Matches(items[i], productId, size)
    ensures RemovedFrom(items, productId, size) == items
  {
    FilterKeepsAll(items, (e: CartEntry) => !Matches(e, productId, size));
  }

  /** Setting a quantity keeps the cart well formed: keys do not change and
      only a quantity of at least one is ever written. */
  lemma {:induction false} QuantityKeepsWellFormed(items: seq<CartEntry>, productId: string, size: string, quantity: int)
    requires WellFormed(items)
    ensures WellFormed(QuantitySet(items, productId, size, quantity))
  {
    var r := QuantitySet(items, productId, size, quantity);
    assert forall i :: 0 <= i < |items| ==> EntryKey(r[i]) == EntryKey(items[i]);
  }

  /** Setting the quantity of a present line moves the unit count by the
      difference between the new and the old quantity. */
  lemma {:induction false} QuantitySetCount(items: seq<CartEntry>, i: nat, quantity: int)
    requires WellFormed(items) && i < |items| && quantity >= 1
    ensures ItemCount(QuantitySet(items, items[i].product.id, items[i].size, quantity))
         == ItemCount(items) - items[i].quantity + quantity
  {
    var id, size := items[i].product.id, items[i].size;
    var f := (e: CartEntry) => if Matches(e, id, size) then e.(quantity := quantity) else e;
    MatchUnique(items, i, id, size);
    MapOnlyAt(items, f, i);
    SumIntUpdate(items, i, f(items[i]), Quantity);
  }

  /** A well-formed cart holds at least as many units as lines. */
  lemma {:induction false} CountAtLeastLines(items: seq<CartEntry>)
    requires WellFormed(items)
    ensures ItemCount(items) >= |items|
  {
    SumIntBounds(items, Quantity, 1);
  }

  // ---------------------------------------------------------------------------
  // The provider's state
  // ---------------------------------------------------------------------------

  /** The `cartItems` state and the operations the provider exposes. */
  class CartState {
    var items: seq<CartEntry>

    /** The list restored from storage. */
    constructor (saved: seq<CartEntry>)
      ensures items == saved
    {
      items := saved;
    }

    ghost predicate Valid()
      reads this
    {
      WellFormed(items)
    }

    method AddToCart(product: Product, size: string)
      modifies this
      ensures items == AddedTo(old(items), product, size)
      ensures old(Valid()) ==> Valid() && ItemCount(items) == ItemCount(old(items)) + 1
    {
      if WellFormed(items) {
        AddKeepsWellFormed(items, product, size);
        AddRaisesTotals(items, product, size);
      }
      items := AddedTo(items, product, size);
    }

    method RemoveFromCart(productId: string, size: string)
      modifies this
      ensures items == RemovedFrom(old(items), productId, size)
      ensures old(Valid()) ==> Valid()
    {
      if WellFormed(items) {
        RemoveKeepsWellFormed(items, productId, size);
      }
      items := RemovedFrom(items, productId, size);
    }

    /** `updateQuantity`: returns before touching the state when the quantity
        is below one. */
    method UpdateQuantity(productId: string, size: string, quantity: int)
      modifies this
      ensures items == QuantitySet(old(items), productId, size, quantity)
      ensures quantity < 1 ==> items == old(items)
      ensures old(Valid()) ==> Valid()
    {
      if quantity < 1 {
        return;
      }
      if WellFormed(items) {
        QuantityKeepsWellFormed(items, productId, size, quantity);
      }
      items := QuantitySet(items, productId, size, quantity);
    }

    method ClearCart()
      modifies this
      ensures items == [] && Valid()
      ensures ItemCount(items) == 0 && PriceTotal(items) == 0.0
    {
      items := [];
    }
  }
}
