/**
 * The account handlers: `register` and `login` over the user table, and the user lookup behind
 * `validateToken`. Password hashing and comparison, and token signing, are oracles passed in.
 */
module Auth {
  import opened Wrappers
  import opened Values
  import opened Errors
  import opened Database
  import opened PasswordRules
  import opened PasswordUtils
  import opened DefaultCategories

  /** JavaScript truthiness of a body field that holds a string or is absent. */
  predicate Filled(v: Option<string>) {
    v.Some? && v.value != ""
  }

  /** The fields of a sign-up body that the checks read. */
  datatype Signup = Signup(firstName: Option<string>, lastName: Option<string>, email: Option<string>, password: Option<string>)

  predicate Complete(b: Signup) {
    Filled(b.firstName) && Filled(b.lastName) && Filled(b.email) && Filled(b.password)
  }

  predicate EmailFree(users: seq<User>, email: string) {
    forall i :: 0 <= i < |users| ==> users[i].email != email
  }

  /** What a response shows of an account: id, email and names. The type has no room for the password hash. */
  datatype PublicUser = PublicUser(id: int, email: string, firstName: string, lastName: string)

  function PublicView(u: User): PublicUser {
    PublicUser(u.id, u.email, u.firstName, u.lastName)
  }

  /**
   * The checks `register` (and the admin's `createUser`) make before writing: all four fields, then a
   * free email, then the password rules; `conflict` is the message of the duplicate-email error. A taken
   * email is reported whatever the password, and a weak password with the first rule it breaks.
   */
  function SignupRejection(users: seq<User>, b: Signup, conflict: string): (r: Option<AppError>)
    ensures r.None? <==> Complete(b) && EmailFree(users, b.email.value) && AllHold(b.password.value)
    ensures !Complete(b) ==> r == Some(Validation("All fields are required"))
    ensures Complete(b) && !EmailFree(users, b.email.value) ==> r == Some(Conflict(conflict))
    ensures Complete(b) && EmailFree(users, b.email.value) && !AllHold(b.password.value) ==>
              Failed(b.password.value) != [] && r == Some(Validation(Failed(b.password.value)[0]))
  {
    if !Complete(b) then Some(Validation("All fields are required"))
    else if FindUserByEmail(users, b.email.value).Some? then Some(Conflict(conflict))
    else
      var strong := StrongPassword(b.password.value);
      FailFastIsFirstCollected(b.password.value);
      if !strong.isStrong then Some(Validation(strong.error.value)) else None
  }

  /**
   * The row `prisma.user.create` stores for a complete sign-up: the names and email as given, the hash of
   * the password, the role's column default `USER`, and the given country and currency (`None`: the
   * column default).
   */
  function NewAccount(id: int, b: Signup, hash: string -> string, now: int, country: Option<string>,
                      currency: Option<string>): User
    requires Complete(b)
  {
    User(id, b.email.value, b.firstName.value, b.lastName.value, HashPassword(Str(b.password.value), hash).value,
         "USER", country, currency, now)
  }

  datatype Session = Session(user: PublicUser, token: string)

  /**
   * `register`: a rejected sign-up writes nothing; an accepted one appends the user, then the user's
   * default categories, and answers with the public fields and a token for the new id.
   */
  method Register(db: Db, b: Signup, hash: string -> string, token: int -> string, now: int) returns (r: Outcome<Session>)
    requires db.Valid()
    modifies db
    ensures db.Valid()
    ensures r.Err? <==> SignupRejection(old(db.users), b, "Mail is already registered").Some?
    ensures r.Err? ==> r.error == SignupRejection(old(db.users), b, "Mail is already registered").value &&
                       db.users == old(db.users) && db.categories == old(db.categories) &&
                       db.nextUserId == old(db.nextUserId) && db.nextCategoryId == old(db.nextCategoryId)
    ensures r.Ok? ==> var u := NewAccount(old(db.nextUserId), b, hash, now, None, None);
                      db.users == old(db.users) + [u] &&
                      db.categories == old(db.categories) + DefaultRows(u.id, old(db.nextCategoryId)) &&
                      r.value == Session(PublicView(u), token(u.id))
    ensures db.transactions == old(db.transactions)
  {
    var rejection := SignupRejection(db.users, b, "Mail is already registered");
    if rejection.Some? {
      return Err(rejection.value);
    }
    var user := NewAccount(db.nextUserId, b, hash, now, None, None);
    db.InsertUser(user);
    CreateDefaultCategories(db, user.id);
    r := Ok(Session(PublicView(user), token(user.id)));
  }

  function InvalidCredentials(): AppError {
    Authentication("Invalid email or password")
  }

  /**
   * `login`: missing fields are refused before the table is read; an unknown email and a wrong password
   * give the same error, so a caller cannot tell which was wrong.
   */
  function Login(users: seq<User>, email: Option<string>, password: Option<string>,
                 compare: (string, string) -> bool, token: int -> string): (r: Outcome<Session>)
    ensures !(Filled(email) && Filled(password)) ==> r == Err(Validation("Email and password are required"))
    ensures Filled(email) && Filled(password) && EmailFree(users, email.value) ==> r == Err(InvalidCredentials())
    ensures r.Ok? <==> Filled(email) && Filled(password) && FindUserByEmail(users, email.value).Some? &&
                       FindUserByEmail(users, email.value).value.passwordHash != "" &&
                       compare(password.value, FindUserByEmail(users, email.value).value.passwordHash)
    ensures Filled(email) && Filled(password) && FindUserByEmail(users, email.value).Some? &&
            FindUserByEmail(users, email.value).value.passwordHash != "" &&
            !compare(password.value, FindUserByEmail(users, email.value).value.passwordHash) ==>
              r == Err(InvalidCredentials())
    ensures r.Ok? ==> var u := FindUserByEmail(users, email.value).value;
                      u.email == email.value && r.value == Session(PublicView(u), token(u.id))
  {
    if !(Filled(email) && Filled(password)) then Err(Validation("Email and password are required"))
    else
      match FindUserByEmail(users, email.value)
      case None => Err(InvalidCredentials())
      case Some(u) =>
        match ComparePassword(Str(password.value), Str(u.passwordHash), compare)
        case Err(e) => Err(e)
        case Ok(valid) =>
          if !valid then Err(InvalidCredentials())
          else Ok(Session(PublicView(u), token(u.id)))
  }

  /** `validateToken`: the public fields of the user the token names, or `User not found`. */
  function ValidateToken(users: seq<User>, userId: int): (r: Outcome<PublicUser>)
    ensures r.Err? <==> forall i :: 0 <= i < |users| ==> users[i].id != userId
    ensures r.Err? ==> r.error == Authentication("User not found")
    ensures r.Ok? ==> exists i :: 0 <= i < |users| && users[i].id == userId && r.value == PublicView(users[i])
  {
    match UserIndex(users, userId)
    case None => Err(Authentication("User not found"))
    case Some(k) => Ok(PublicView(users[k]))
  }

  lemma {:induction false} FindUserByEmailAppend(users: seq<User>, u: User)
    requires EmailFree(users, u.email)
    ensures FindUserByEmail(users + [u], u.email) == Some(u)
  {
    if users == [] {
      assert users + [u] == [u];
    } else {
      assert (users + [u])[0] == users[0];
      assert (users + [u])[1..] == users[1..] + [u];
      assert EmailFree(users[1..], u.email) by {
        forall i | 0 <= i < |users[1..]| ensures users[1..][i].email != u.email {
          assert users[1..][i] == users[i + 1];
        }
      }
      FindUserByEmailAppend(users[1..], u);
    }
  }

  /**
   * Signing up and then logging in with the same email and password succeeds and shows the new account,
   * provided the comparison accepts a password against its own hash.
   */
  lemma LoginAfterSignup(users: seq<User>, b: Signup, id: int, hash: string -> string,
                         compare: (string, string) -> bool, token: int -> string, now: int, conflict: string)
    requires SignupRejection(users, b, conflict).None?
    requires hash(b.password.value) != "" && compare(b.password.value, hash(b.password.value))
    ensures var u := NewAccount(id, b, hash, now, None, None);
            Login(users + [u], b.email, b.password, compare, token) == Ok(Session(PublicView(u), token(id)))
  {
    var u := NewAccount(id, b, hash, now, None, None);
    FindUserByEmailAppend(users, u);
  }

  lemma {:induction false} UserIndexAppend(users: seq<User>, u: User)
    requires forall i :: 0 <= i < |users| ==> users[i].id != u.id
    ensures UserIndex(users + [u], u.id) == Some(|users|)
  {
    if users == [] {
      assert users + [u] == [u];
    } else {
      assert (users + [u])[0] == users[0];
      assert (users + [u])[1..] == users[1..] + [u];
      assert forall i :: 0 <= i < |users[1..]| ==> users[1..][i] == users[i + 1];
      UserIndexAppend(users[1..], u);
    }
  }

  /** The token of a newly registered account names a user that `validateToken` finds: the new one. */
  lemma NewAccountValidates(users: seq<User>, u: User)
    requires forall i :: 0 <= i < |users| ==> users[i].id != u.id
    ensures ValidateToken(users + [u], u.id) == Ok(PublicView(u))
  {
    UserIndexAppend(users, u);
  }
}
