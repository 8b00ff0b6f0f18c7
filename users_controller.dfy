/** UsersController.cs: the profile update, which keeps the stored id and, when
    none is sent, the stored password, and the wallet top-up. */
module UsersController {
  import opened Seqs
  import opened Models
  import opened Http
  import opened UsersService

  /** The record `Update` writes: the body, with the stored id and, when the
      body's password is empty, the stored password. Every other field is the
      body's. A password the client leaves out is the empty string here. */
  function MergeUpdate(stored: User, body: User): (r: User)
    ensures r.id == stored.id
    ensures body.password == "" ==> r.password == stored.password
    ensures body.password != "" ==> r.password == body.password
    ensures r.(id := body.id, password := body.password) == body
  {
    var withId := body.(id := stored.id);
    if withId.password == "" then withId.(password := stored.password) else withId
  }

  /** Merging is idempotent: a merged record merged again onto the same stored
      user is unchanged. */
  lemma MergeUpdateIdempotent(stored: User, body: User)
    ensures MergeUpdate(stored, MergeUpdate(stored, body)) == MergeUpdate(stored, body)
  {
  }

  /** `Update`: an unknown id is NotFound and changes nothing. Otherwise the
      merged record replaces the stored one; the source writes it twice, which
      leaves the collection as one replacement does. */
  method Update(store: UsersCollection, id: string, updatedUser: User) returns (r: Response<()>)
    modifies store
    ensures old(store.GetById(id)).None? ==> r == NotFound(None) && store.users == old(store.users)
    ensures old(store.GetById(id)).Some? ==>
      r == NoContent &&
      store.users == ReplaceFirst(old(store.users), UserId, Some(id), MergeUpdate(old(store.GetById(id)).value, updatedUser))
  {
    var user := store.GetById(id);
    if user.None? {
      return NotFound(None);
    }
    var merged := MergeUpdate(user.value, updatedUser);
    ghost var before := store.users;
    ReplaceFirstTwice(before, UserId, Some(id), merged);
    store.Update(id, merged);
    store.Update(id, merged);
    r := NoContent;
  }

  /** The wallet balance of one user. */
  function Balance(u: User): real
  {
    u.walletBalance
  }

  /** The user after `WalletBalance += amount`; the amount's sign is not checked. */
  function Credited(u: User, amount: real): (r: User)
    ensures r.walletBalance == u.walletBalance + amount
    ensures r.(walletBalance := u.walletBalance) == u
  {
    u.(walletBalance := u.walletBalance + amount)
  }

  /** A top-up on a stored id raises the sum of all balances by exactly the amount. */
  lemma TopUpAddsToTotal(users: seq<User>, id: string, amount: real)
    requires FirstIndex(users, UserId, Some(id)).Some?
    ensures Sum(ReplaceFirst(users, UserId, Some(id), Credited(Find(users, UserId, Some(id)).value, amount)), Balance)
         == Sum(users, Balance) + amount
  {
    var i := FirstIndex(users, UserId, Some(id)).value;
    var u := Credited(users[i], amount);
    assert ReplaceFirst(users, UserId, Some(id), u) == users[i := u];
    SumUpdate(users, i, u, Balance);
  }

  /** `TopUpWallet`: an unknown id is NotFound and changes nothing. Otherwise the
      stored user, with only its balance raised by `amount`, replaces itself,
      and the new balance is returned. */
  method TopUpWallet(store: UsersCollection, id: string, amount: real) returns (r: Response<real>)
    modifies store
    ensures old(store.GetById(id)).None? ==> r == NotFound(None) && store.users == old(store.users)
    ensures old(store.GetById(id)).Some? ==>
      var user := old(store.GetById(id)).value;
      r == Ok(user.walletBalance + amount) &&
      store.users == ReplaceFirst(old(store.users), UserId, Some(id), Credited(user, amount)) &&
      Sum(store.users, Balance) == Sum(old(store.users), Balance) + amount
  {
    var user := store.GetById(id);
    if user.None? {
      return NotFound(None);
    }
    assert user == Find(store.users, UserId, Some(id));
    assert FirstIndex(store.users, UserId, Some(id)).Some?;
    TopUpAddsToTotal(store.users, id, amount);
    var credited := Credited(user.value, amount);
    store.Update(id, credited);
    r := Ok(credited.walletBalance);
  }
}
