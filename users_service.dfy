/** UsersService.cs: the `Users` collection, looked up by exact email or by id,
    inserted into and replaced one record at a time. */
module UsersService {
  import opened Seqs
  import opened Models

  /** The `Users` collection, in insertion order. */
  class UsersCollection {
    var users: seq<User>

    constructor (initial: seq<User>)
      ensures users == initial
    {
      users := initial;
    }

    /** `GetByEmailAsync`: the first user whose email is exactly `email`. */
    function GetByEmail(email: string): (r: Option<User>)
      reads this
      ensures r.Some? <==> exists j :: 0 <= j < |users| && users[j].email == email
      ensures r.Some? ==> r.value in users && r.value.email == email
    {
      Find(users, UserEmail, email)
    }

    /** `GetAsync(id)`: the first user with that id. */
    function GetById(id: string): (r: Option<User>)
      reads this
      ensures r.Some? <==> exists j :: 0 <= j < |users| && users[j].id == Some(id)
      ensures r.Some? ==> r.value in users && r.value.id == Some(id)
    {
      Find(users, UserId, Some(id))
    }

    /** `CreateAsync`: insert one user, with the driver's id when it has none.
        A user whose email was not yet taken is then the one found by it. */
    method Create(newUser: User, freshId: string) returns (stored: User)
      modifies this
      ensures stored == newUser.(id := InsertedId(newUser.id, freshId))
      ensures users == old(users) + [stored]
      ensures old(GetByEmail(newUser.email)).None? ==> GetByEmail(newUser.email) == Some(stored)
      ensures old(GetByEmail(newUser.email)).Some? ==> GetByEmail(newUser.email) == old(GetByEmail(newUser.email))
    {
      stored := newUser.(id := InsertedId(newUser.id, freshId));
      if FirstIndex(users, UserEmail, newUser.email).None? {
        FindAfterAppend(users, UserEmail, newUser.email, stored);
      } else {
        FindBeforeAppend(users, UserEmail, newUser.email, stored);
        assert (users + [stored])[FirstIndex(users, UserEmail, newUser.email).value]
            == users[FirstIndex(users, UserEmail, newUser.email).value];
      }
      users := users + [stored];
    }

    /** `UpdateAsync`: replace the first user with that id. */
    method Update(id: string, updatedUser: User)
      modifies this
      ensures users == ReplaceFirst(old(users), UserId, Some(id), updatedUser)
    {
      users := ReplaceFirst(users, UserId, Some(id), updatedUser);
    }
  }
}
