/** UserAddresses.jsx: the address book. Deleting and choosing the default are
    list updaters; submitting the form builds the new list step by step. Every
    change goes through `saveAddresses`, which stores the list on the server and
    only then adopts it locally; whether that round trip succeeded is the
    parameter `saved`, and whether the user confirmed a deletion is
    `confirmed`. The new address's `Date.now()` id is the parameter `freshId`. */
module UserAddresses {
  import opened Seqs
  import opened Models

  function DistinctIds(): (UserAddress, UserAddress) -> bool
  {
    (a: UserAddress, b: UserAddress) => a.id != b.id
  }

  function NotBothDefault(): (UserAddress, UserAddress) -> bool
  {
    (a: UserAddress, b: UserAddress) => !(a.isDefault && b.isDefault)
  }

  /** The state the page keeps: ids are unique and at most one address is the default. */
  ghost predicate WellFormed(addresses: seq<UserAddress>)
  {
    Pairwise(addresses, DistinctIds()) && Pairwise(addresses, NotBothDefault())
  }

  // ---------------------------------------------------------------------------
  // Delete and set-default
  // ---------------------------------------------------------------------------

  /** `handleDelete`'s list: the addresses whose id differs, in order. */
  function WithoutId(addresses: seq<UserAddress>, id: string): (r: seq<UserAddress>)
    ensures |r| <= |addresses|
    ensures forall a :: a in r <==> a in addresses && a.id != id
  {
    var keep := (a: UserAddress) => a.id != id;
    FilterMemberAll(addresses, keep);
    Filter(addresses, keep)
  }

  /** Deleting an id present exactly once removes that one address. */
  lemma WithoutIdOne(addresses: seq<UserAddress>, k: nat)
    requires k < |addresses| && Pairwise(addresses, DistinctIds())
    ensures WithoutId(addresses, addresses[k].id) == addresses[..k] + addresses[k + 1..]
  {
    var id := addresses[k].id;
    forall j | 0 <= j < |addresses| && j != k
      ensures addresses[j].id != id
    {
      if j < k {
        assert DistinctIds()(addresses[j], addresses[k]);
      } else {
        assert DistinctIds()(addresses[k], addresses[j]);
      }
    }
    FilterDropsOne(addresses, (a: UserAddress) => a.id != id, k);
  }

  lemma WithoutIdKeepsWellFormed(addresses: seq<UserAddress>, id: string)
    requires WellFormed(addresses)
    ensures WellFormed(WithoutId(addresses, id))
  {
    FilterPairwise(addresses, (a: UserAddress) => a.id != id, DistinctIds());
    FilterPairwise(addresses, (a: UserAddress) => a.id != id, NotBothDefault());
  }

  /** `handleSetDefault`'s list: same addresses in the same order, and the
      default flag set exactly on those with the id. */
  function DefaultSet(addresses: seq<UserAddress>, id: string): (r: seq<UserAddress>)
    ensures |r| == |addresses|
    ensures forall i :: 0 <= i < |addresses| ==> r[i] == addresses[i].(isDefault := addresses[i].id == id)
    ensures (forall i :: 0 <= i < |addresses| ==> addresses[i].id != id) ==>
      forall i :: 0 <= i < |r| ==> !r[i].isDefault
  {
    Map(addresses, (a: UserAddress) => a.(isDefault := a.id == id))
  }

  /** With unique ids, choosing a present id leaves exactly that address the default. */
  lemma DefaultSetExactlyOne(addresses: seq<UserAddress>, k: nat)
    requires k < |addresses| && Pairwise(addresses, DistinctIds())
    ensures forall i :: 0 <= i < |addresses| ==> (DefaultSet(addresses, addresses[k].id)[i].isDefault <==> i == k)
  {
    forall i | 0 <= i < |addresses| && i != k
      ensures addresses[i].id != addresses[k].id
    {
      if i < k {
        assert DistinctIds()(addresses[i], addresses[k]);
      } else {
        assert DistinctIds()(addresses[k], addresses[i]);
      }
    }
  }

  lemma DefaultSetKeepsWellFormed(addresses: seq<UserAddress>, id: string)
    requires WellFormed(addresses)
    ensures WellFormed(DefaultSet(addresses, id))
  {
    var r := DefaultSet(addresses, id);
    forall i, j | 0 <= i < j < |r|
      ensures DistinctIds()(r[i], r[j]) && NotBothDefault()(r[i], r[j])
    {
      assert DistinctIds()(addresses[i], addresses[j]);
    }
  }

  // ---------------------------------------------------------------------------
  // Submit
  // ---------------------------------------------------------------------------

  /** What `handleSubmit` makes of the list. With the form's default flag set,
      every other address loses its flag. Editing (a non-empty `editingId`):
      the same length, the addresses with `editingId` replaced by the form
      under that id. Adding: the form appended under `freshId`, as the default
      when the list was empty. */
  predicate IsSubmitted(addresses: seq<UserAddress>, form: UserAddress, editingId: string, freshId: string,
                        updated: seq<UserAddress>)
  {
    (editingId != "" ==>
      |updated| == |addresses| &&
      forall i :: 0 <= i < |addresses| ==>
        (addresses[i].id == editingId ==> updated[i] == form.(id := editingId)) &&
        (addresses[i].id != editingId ==> updated[i] == addresses[i].(isDefault := addresses[i].isDefault && !form.isDefault))) &&
    (editingId == "" ==>
      |updated| == |addresses| + 1 &&
      updated[|addresses|] == form.(id := freshId, isDefault := form.isDefault || |addresses| == 0) &&
      forall i :: 0 <= i < |addresses| ==>
        updated[i] == addresses[i].(isDefault := addresses[i].isDefault && !form.isDefault))
  }

  /** `handleSubmit`'s list, built as the source builds it. With the form's
      default flag set, every stored address first loses its flag. Then either
      the addresses with `editingId` become the form under that id (an empty
      `editingId` is JavaScript's falsy "not editing"), or the form is appended
      under `freshId`, as the default when the list was empty. */
  method Submitted(addresses: seq<UserAddress>, form: UserAddress, editingId: string, freshId: string)
    returns (updated: seq<UserAddress>)
    ensures IsSubmitted(addresses, form, editingId, freshId, updated)
  {
    updated := addresses;
    if form.isDefault {
      updated := Map(updated, (a: UserAddress) => a.(isDefault := false));
    }
    if editingId != "" {
      updated := Map(updated, (a: UserAddress) => if a.id == editingId then form.(id := editingId) else a);
    } else {
      var newAddr := form.(id := freshId);
      if |updated| == 0 {
        newAddr := newAddr.(isDefault := true);
      }
      updated := updated + [newAddr];
    }
  }

  /** The submitted list is well formed again when the edited id is kept
      unique or the fresh id is new. */
  lemma SubmittedKeepsWellFormed(addresses: seq<UserAddress>, form: UserAddress, editingId: string, freshId: string,
                                 updated: seq<UserAddress>)
    requires WellFormed(addresses)
    requires editingId == "" ==> forall i :: 0 <= i < |addresses| ==> addresses[i].id != freshId
    requires IsSubmitted(addresses, form, editingId, freshId, updated)
    ensures WellFormed(updated)
  {
    forall i, j | 0 <= i < j < |updated|
      ensures DistinctIds()(updated[i], updated[j]) && NotBothDefault()(updated[i], updated[j])
    {
      if j < |addresses| {
        assert DistinctIds()(addresses[i], addresses[j]);
        assert NotBothDefault()(addresses[i], addresses[j]);
        assert updated[i].id == addresses[i].id && updated[j].id == addresses[j].id;
      } else {
        assert updated[j].id == freshId;
        assert updated[i] == addresses[i].(isDefault := addresses[i].isDefault && !form.isDefault);
        if form.isDefault {
          assert !updated[i].isDefault;
        } else {
          assert |addresses| > 0;
          assert !updated[j].isDefault;
        }
      }
    }
  }

  /** A default new address is the only default afterwards; a default edit
      leaves exactly the edited address as default. */
  lemma SubmittedDefaultIsOnly(addresses: seq<UserAddress>, form: UserAddress, editingId: string, freshId: string,
                               updated: seq<UserAddress>)
    requires form.isDefault
    requires IsSubmitted(addresses, form, editingId, freshId, updated)
    ensures editingId == "" ==> forall i :: 0 <= i < |updated| ==> (updated[i].isDefault <==> i == |addresses|)
    ensures editingId != "" ==> forall i :: 0 <= i < |updated| ==> (updated[i].isDefault <==> addresses[i].id == editingId)
  {
  }

  // ---------------------------------------------------------------------------
  // The page's state
  // ---------------------------------------------------------------------------

  class AddressBook {
    var addresses: seq<UserAddress>

    /** The list taken from the signed-in user. */
    constructor (initial: seq<UserAddress>)
      ensures addresses == initial
    {
      addresses := initial;
    }

    ghost predicate Valid()
      reads this
    {
      WellFormed(addresses)
    }

    /** `saveAddresses`: the local list follows only a successful save. */
    method Save(newAddresses: seq<UserAddress>, saved: bool)
      modifies this
      ensures addresses == if saved then newAddresses else old(addresses)
    {
      if saved {
        addresses := newAddresses;
      }
    }

    /** `handleDelete`: nothing without confirmation. */
    method Delete(id: string, confirmed: bool, saved: bool)
      modifies this
      ensures addresses == if confirmed && saved then WithoutId(old(addresses), id) else old(addresses)
      ensures old(Valid()) ==> Valid()
    {
      if !confirmed {
        return;
      }
      if WellFormed(addresses) {
        WithoutIdKeepsWellFormed(addresses, id);
      }
      Save(WithoutId(addresses, id), saved);
    }

    /** `handleSetDefault`. */
    method SetDefault(id: string, saved: bool)
      modifies this
      ensures addresses == if saved then DefaultSet(old(addresses), id) else old(addresses)
      ensures old(Valid()) ==> Valid()
    {
      if WellFormed(addresses) {
        DefaultSetKeepsWellFormed(addresses, id);
      }
      Save(DefaultSet(addresses, id), saved);
    }

    /** `handleSubmit`: on a successful save the book holds the submitted list;
        an edit keeps the length, a new address adds one at the end, and the
        book stays well formed when the fresh id is unused. */
    method Submit(form: UserAddress, editingId: string, freshId: string, saved: bool)
      modifies this
      ensures !saved ==> addresses == old(addresses)
      ensures saved ==> IsSubmitted(old(addresses), form, editingId, freshId, addresses)
      ensures saved && editingId != "" ==> |addresses| == |old(addresses)|
      ensures saved && editingId == "" ==>
        |addresses| == |old(addresses)| + 1 && addresses[|old(addresses)|].id == freshId &&
        (|old(addresses)| == 0 ==> addresses[0].isDefault)
      ensures old(Valid()) && (editingId == "" ==> forall i :: 0 <= i < |old(addresses)| ==> old(addresses)[i].id != freshId)
        ==> Valid()
    {
      var updated := Submitted(addresses, form, editingId, freshId);
      if WellFormed(addresses) && (editingId == "" ==> forall i :: 0 <= i < |addresses| ==> addresses[i].id != freshId) {
        SubmittedKeepsWellFormed(addresses, form, editingId, freshId, updated);
      }
      Save(updated, saved);
    }
  }
}
