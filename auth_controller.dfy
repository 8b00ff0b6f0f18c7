/** AuthController.cs: registration with a duplicate-email guard, login by exact
    email and password comparison, and the one-time administrator seed. Each
    success is recorded in the activity log except the seed. The login token
    (a fresh GUID) is not modelled; ids the store generates and the clock are
    the parameters `freshId` and `now`. */
module AuthController {
  import opened Seqs
  import opened Models
  import opened Http
  import opened UsersService
  import opened ActivityLogService

  const EMAIL_TAKEN: string := "Email already registered"
  const REGISTERED: string := "Registration successful"
  const INVALID_LOGIN: string := "Invalid email or password"
  const ADMIN_EMAIL: string := "admin@tokobaju.com"
  const ADMIN_EXISTS: string := "Admin already exists"
  const ADMIN_CREATED: string := "Admin user created. Email: admin@tokobaju.com, Password: admin123"
  const CUSTOMER: string := "Customer"
  const ADMIN: string := "Admin"
  const UNKNOWN: string := "Unknown"

  /** The fields the successful login sends back (the token aside). */
  datatype LoginResult = LoginResult(id: Option<string>, email: string, fullName: string, role: string)

  /** `Id ?? "Unknown"`. */
  function OrUnknown(id: Option<string>): (r: string)
    ensures id.Some? ==> r == id.value
    ensures id.None? ==> r == UNKNOWN
  {
    if id.Some? then id.value else UNKNOWN
  }

  /** The user `Register` inserts: no id yet, no addresses, an empty wallet. */
  function NewCustomer(dto: RegisterDto): User
  {
    User(None, dto.email, dto.password, dto.fullName, CUSTOMER, [], 0.0)
  }

  /** The user `SeedAdmin` inserts. */
  function AdminUser(): User
  {
    User(None, ADMIN_EMAIL, "admin123", "Administrator", ADMIN, [], 0.0)
  }

  /** No two stored users share an email. */
  ghost predicate UniqueEmails(users: seq<User>)
  {
    forall i, j :: 0 <= i < j < |users| ==> users[i].email != users[j].email
  }

  /** Inserting a user whose email is not yet taken keeps emails unique. */
  lemma UniqueEmailsAppend(users: seq<User>, u: User)
    requires UniqueEmails(users)
    requires Find(users, UserEmail, u.email).None?
    ensures UniqueEmails(users + [u])
  {
    assert forall i :: 0 <= i < |users| ==> UserEmail(users[i]) != u.email;
  }

  /** The login decision: the first user with that email, provided its stored
      password equals the given one exactly. */
  function Authenticate(users: seq<User>, dto: LoginDto): (r: Option<User>)
    ensures r.Some? <==>
      Find(users, UserEmail, dto.email).Some? && Find(users, UserEmail, dto.email).value.password == dto.password
    ensures r.Some? ==> r == Find(users, UserEmail, dto.email)
    ensures r.Some? ==> r.value in users && r.value.email == dto.email && r.value.password == dto.password
  {
    match Find(users, UserEmail, dto.email)
    case None => None
    case Some(user) => if user.password != dto.password then None else Some(user)
  }

  /** With unique emails, login succeeds exactly when some stored user has
      both that email and that password. */
  lemma AuthenticateUnique(users: seq<User>, dto: LoginDto)
    requires UniqueEmails(users)
    ensures Authenticate(users, dto).Some? <==>
      exists j :: 0 <= j < |users| && users[j].email == dto.email && users[j].password == dto.password
  {
    var k := FirstIndex(users, UserEmail, dto.email);
    if k.Some? {
      forall j | 0 <= j < |users| && users[j].email == dto.email
        ensures j == k.value
      {
        assert UserEmail(users[j]) == dto.email;
      }
    } else {
      forall j | 0 <= j < |users|
        ensures users[j].email != dto.email
      {
        assert UserEmail(users[j]) != dto.email;
      }
    }
  }

  /** Without that guarantee only the first account with an email can log in:
      a later one with the same email and the right password is refused. */
  lemma ShadowedAccountRefused(first: User, second: User, dto: LoginDto)
    requires first.email == dto.email && second.email == dto.email
    requires first.password != dto.password && second.password == dto.password
    ensures Authenticate([first, second], dto).None?
  {
    assert UserEmail(first) == dto.email;
  }

  /** `Register`: a taken email is refused and neither store changes. Otherwise
      exactly one customer with the given email, name and password is inserted,
      the lookup by email finds it again, and one "Register" entry for it is
      appended to the log. */
  method Register(users: UsersCollection, logs: LogsCollection, dto: RegisterDto, freshId: string, now: int)
    returns (r: Response<string>)
    modifies users, logs
    ensures old(users.GetByEmail(dto.email)).Some? ==>
      r == BadRequest(Some(EMAIL_TAKEN)) && users.users == old(users.users) && logs.logs == old(logs.logs)
    ensures old(users.GetByEmail(dto.email)).None? ==>
      r == Ok(REGISTERED) &&
      users.users == old(users.users) + [NewCustomer(dto).(id := Some(freshId))] &&
      users.GetByEmail(dto.email) == Some(NewCustomer(dto).(id := Some(freshId))) &&
      logs.logs == old(logs.logs) + [ActivityLog(freshId, dto.fullName, CUSTOMER, "Register", "New user registered", now)]
    ensures UniqueEmails(old(users.users)) ==> UniqueEmails(users.users)
  {
    var existingUser := users.GetByEmail(dto.email);
    if existingUser.Some? {
      return BadRequest(Some(EMAIL_TAKEN));
    }
    if UniqueEmails(users.users) {
      UniqueEmailsAppend(users.users, NewCustomer(dto).(id := Some(freshId)));
    }
    var stored := users.Create(NewCustomer(dto), freshId);
    var createdUser := users.GetByEmail(dto.email);
    if createdUser.Some? {
      logs.Log(OrUnknown(createdUser.value.id), createdUser.value.fullName, createdUser.value.role,
               "Register", "New user registered", now);
    }
    r := Ok(REGISTERED);
  }

  /** `Login`: Unauthorized exactly when `Authenticate` refuses, with nothing
      logged; on success one "Login" entry is appended and the stored user's
      id, email, name and role are returned. The user store is never written. */
  method Login(users: UsersCollection, logs: LogsCollection, dto: LoginDto, now: int) returns (r: Response<LoginResult>)
    modifies logs
    ensures r.Unauthorized? <==> Authenticate(users.users, dto).None?
    ensures r.Unauthorized? ==> r.message == Some(INVALID_LOGIN) && logs.logs == old(logs.logs)
    ensures r.Ok? || r.Unauthorized?
    ensures r.Ok? ==>
      var user := Authenticate(users.users, dto).value;
      r.body == LoginResult(user.id, user.email, user.fullName, user.role) &&
      logs.logs == old(logs.logs) + [ActivityLog(OrUnknown(user.id), user.fullName, user.role, "Login", "User logged in successfully", now)]
  {
    var user := users.GetByEmail(dto.email);
    if user.None? || user.value.password != dto.password {
      return Unauthorized(Some(INVALID_LOGIN));
    }
    var u := user.value;
    logs.Log(OrUnknown(u.id), u.fullName, u.role, "Login", "User logged in successfully", now);
    r := Ok(LoginResult(u.id, u.email, u.fullName, u.role));
  }

  /** `SeedAdmin`: refused when the administrator email is taken; otherwise the
      administrator is inserted. Either way that email is taken afterwards, so
      a second call is always refused. */
  method SeedAdmin(users: UsersCollection, freshId: string) returns (r: Response<string>)
    modifies users
    ensures old(users.GetByEmail(ADMIN_EMAIL)).Some? ==>
      r == BadRequest(Some(ADMIN_EXISTS)) && users.users == old(users.users)
    ensures old(users.GetByEmail(ADMIN_EMAIL)).None? ==>
      r == Ok(ADMIN_CREATED) && users.users == old(users.users) + [AdminUser().(id := Some(freshId))] &&
      users.GetByEmail(ADMIN_EMAIL) == Some(AdminUser().(id := Some(freshId)))
    ensures users.GetByEmail(ADMIN_EMAIL).Some?
    ensures UniqueEmails(old(users.users)) ==> UniqueEmails(users.users)
  {
    var existingAdmin := users.GetByEmail(ADMIN_EMAIL);
    if existingAdmin.Some? {
      return BadRequest(Some(ADMIN_EXISTS));
    }
    if UniqueEmails(users.users) {
      UniqueEmailsAppend(users.users, AdminUser().(id := Some(freshId)));
    }
    var stored := users.Create(AdminUser(), freshId);
    r := Ok(ADMIN_CREATED);
  }
}
