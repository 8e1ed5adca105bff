/**
 * The admin handlers: the user list with its search and role filter, role changes and deletions with
 * their guards, the top-spender ranking of the global statistics, and account creation by an admin.
 */
module Admin {
  import opened Wrappers
  import opened Strings
  import opened Errors
  import opened Database
  import opened Sorting
  import opened Paging
  import opened DefaultCategories
  import opened Auth
  import ErrorHandler

  // ---------------------------------------------------------------- the user search

  datatype Field = EmailField | FirstNameField | LastNameField

  function FieldOf(u: User, f: Field): string {
    match f
    case EmailField => u.email
    case FirstNameField => u.firstName
    case LastNameField => u.lastName
  }

  /** One condition of the `OR` list: a case-insensitive `contains` on a field, or two of them under `AND`. */
  datatype Clause = Has(field: Field, text: string) | FirstAndLast(first: string, last: string)

  predicate ClauseHolds(c: Clause, u: User) {
    match c
    case Has(f, text) => ContainsInsensitive(FieldOf(u, f), text)
    case FirstAndLast(first, last) => ContainsInsensitive(u.firstName, first) && ContainsInsensitive(u.lastName, last)
  }

  predicate AnyHolds(cs: seq<Clause>, u: User) {
    exists i :: 0 <= i < |cs| && ClauseHolds(cs[i], u)
  }

  /** The `where` of the user list: an optional `OR` of clauses and an optional role. */
  datatype Where = Where(anyOf: Option<seq<Clause>>, role: Option<string>)

  predicate WhereHolds(w: Where, u: User) {
    (w.anyOf.Some? ==> AnyHolds(w.anyOf.value, u)) && (w.role.Some? ==> u.role == w.role.value)
  }

  /** `search.trim().split(/\s+/)`. */
  function SearchTerms(search: string): (r: seq<string>)
    ensures |r| >= 1
  {
    SplitWs(Trim(search))
  }

  /**
   * Which users a search names: the email contains the whole search text; for a one-word search the
   * first or last name contains it too; for several words the first or last name contains one of them.
   */
  predicate SearchMatches(search: Option<string>, u: User) {
    !Filled(search) ||
    var s := search.value;
    var terms := SearchTerms(s);
    ContainsInsensitive(u.email, s) ||
    if |terms| == 1 then ContainsInsensitive(u.firstName, s) || ContainsInsensitive(u.lastName, s)
    else exists k :: 0 <= k < |terms| && (ContainsInsensitive(u.firstName, terms[k]) || ContainsInsensitive(u.lastName, terms[k]))
  }

  predicate RoleMatches(role: Option<string>, u: User) {
    !Filled(role) || u.role == role.value
  }

  /** The `OR` list of a one-word search: the whole text in the email, the first name or the last name. */
  function OneWordClauses(s: string): (r: seq<Clause>) {
    [Has(EmailField, s), Has(FirstNameField, s), Has(LastNameField, s)]
  }

  lemma OneWordMeaning(s: string, u: User)
    ensures AnyHolds(OneWordClauses(s), u) <==>
            ContainsInsensitive(u.email, s) || ContainsInsensitive(u.firstName, s) || ContainsInsensitive(u.lastName, s)
  {
    var cs := OneWordClauses(s);
    if ContainsInsensitive(u.email, s) {
      assert ClauseHolds(cs[0], u);
    } else if ContainsInsensitive(u.firstName, s) {
      assert ClauseHolds(cs[1], u);
    } else if ContainsInsensitive(u.lastName, s) {
      assert ClauseHolds(cs[2], u);
    }
  }

  /** The `OR` list of a several-word search: the email, each word in each name, and first-and-rest. */
  function SeveralWordsClauses(s: string, terms: seq<string>): (r: seq<Clause>)
    requires |terms| >= 1
    ensures |r| == 2 * |terms| + 2
  {
    [Has(EmailField, s)] +
    seq(|terms|, k requires 0 <= k < |terms| => Has(FirstNameField, terms[k])) +
    seq(|terms|, k requires 0 <= k < |terms| => Has(LastNameField, terms[k])) +
    [FirstAndLast(terms[0], Join(terms[1..], " "))]
  }

  /** Some word of the search occurs in the first or the last name. */
  predicate NameHasTerm(terms: seq<string>, u: User) {
    exists k :: 0 <= k < |terms| && (ContainsInsensitive(u.firstName, terms[k]) || ContainsInsensitive(u.lastName, terms[k]))
  }

  /** The clause at position `j` of the several-word list. */
  lemma SeveralWordsClauseAt(s: string, terms: seq<string>, j: nat)
    requires |terms| >= 1 && j < 2 * |terms| + 2
    ensures SeveralWordsClauses(s, terms)[j] ==
              if j == 0 then Has(EmailField, s)
              else if j <= |terms| then Has(FirstNameField, terms[j - 1])
              else if j <= 2 * |terms| then Has(LastNameField, terms[j - 1 - |terms|])
              else FirstAndLast(terms[0], Join(terms[1..], " "))
  {
  }

  /** A clause that holds at some position makes the `OR` hold. */
  lemma HoldsAt(cs: seq<Clause>, j: nat, u: User)
    requires j < |cs| && ClauseHolds(cs[j], u)
    ensures AnyHolds(cs, u)
  {
  }

  /** A clause that holds names the user by email or by a word in a name. */
  lemma SeveralWordsSound(s: string, terms: seq<string>, u: User)
    requires |terms| >= 1 && AnyHolds(SeveralWordsClauses(s, terms), u)
    ensures ContainsInsensitive(u.email, s) || NameHasTerm(terms, u)
  {
    var cs := SeveralWordsClauses(s, terms);
    var n := |terms|;
    var i :| 0 <= i < |cs| && ClauseHolds(cs[i], u);
    SeveralWordsClauseAt(s, terms, i);
    if 1 <= i <= n {
      assert ContainsInsensitive(u.firstName, terms[i - 1]);
    } else if n < i <= 2 * n {
      assert ContainsInsensitive(u.lastName, terms[i - 1 - n]);
    } else if i == 2 * n + 1 {
      assert ContainsInsensitive(u.firstName, terms[0]);
    }
  }

  /** A user named by email or by a word in a name satisfies some clause. */
  lemma SeveralWordsComplete(s: string, terms: seq<string>, u: User)
    requires |terms| >= 1 && (ContainsInsensitive(u.email, s) || NameHasTerm(terms, u))
    ensures AnyHolds(SeveralWordsClauses(s, terms), u)
  {
    var cs := SeveralWordsClauses(s, terms);
    var n := |terms|;
    if ContainsInsensitive(u.email, s) {
      SeveralWordsClauseAt(s, terms, 0);
      HoldsAt(cs, 0, u);
    } else {
      var k :| 0 <= k < n && (ContainsInsensitive(u.firstName, terms[k]) || ContainsInsensitive(u.lastName, terms[k]));
      if ContainsInsensitive(u.firstName, terms[k]) {
        SeveralWordsClauseAt(s, terms, 1 + k);
        HoldsAt(cs, 1 + k, u);
      } else {
        SeveralWordsClauseAt(s, terms, 1 + n + k);
        HoldsAt(cs, 1 + n + k, u);
      }
    }
  }

  /**
   * The clauses hold exactly when the email contains the search or a name contains one word; the
   * first-and-rest clause adds no match of its own, since its first half is the clause for word one.
   */
  lemma SeveralWordsMeaning(s: string, terms: seq<string>, u: User)
    requires |terms| >= 1
    ensures AnyHolds(SeveralWordsClauses(s, terms), u) <==>
            ContainsInsensitive(u.email, s) ||
            exists k :: 0 <= k < |terms| && (ContainsInsensitive(u.firstName, terms[k]) || ContainsInsensitive(u.lastName, terms[k]))
  {
    if AnyHolds(SeveralWordsClauses(s, terms), u) {
      SeveralWordsSound(s, terms, u);
    }
    if ContainsInsensitive(u.email, s) || NameHasTerm(terms, u) {
      SeveralWordsComplete(s, terms, u);
    }
  }

  /**
   * The `where` as the handler assembles it: the search clauses when a search is given, then the role.
   * A user satisfies it exactly when the search names the user and the role, if given, is the user's.
   */
  method BuildWhere(search: Option<string>, role: Option<string>) returns (w: Where)
    ensures w.anyOf.Some? <==> Filled(search)
    ensures w.role.Some? <==> Filled(role)
    ensures forall u :: WhereHolds(w, u) <==> SearchMatches(search, u) && RoleMatches(role, u)
  {
    w := Where(None, None);
    if Filled(search) {
      var s := search.value;
      var terms := SearchTerms(s);
      if |terms| == 1 {
        w := w.(anyOf := Some(OneWordClauses(s)));
        forall u ensures AnyHolds(w.anyOf.value, u) <==> SearchMatches(search, u) {
          OneWordMeaning(s, u);
        }
      } else {
        w := w.(anyOf := Some(SeveralWordsClauses(s, terms)));
        forall u ensures AnyHolds(w.anyOf.value, u) <==> SearchMatches(search, u) {
          SeveralWordsMeaning(s, terms, u);
        }
      }
    }
    if Filled(role) {
      w := w.(role := role);
    }
  }

  /** Searching for a user's own email finds that user. */
  lemma SearchByOwnEmail(u: User)
    requires u.email != ""
    ensures SearchMatches(Some(u.email), u)
  {
    ContainsSelfInsensitive(u.email, u.email);
  }

  // ---------------------------------------------------------------- the user list

  /** `_count.categories` and `_count.expenses`: how many rows of each table a user owns. */
  function CategoryCount(cats: seq<Category>, userId: int): nat {
    if cats == [] then 0 else (if cats[0].userId == userId then 1 else 0) + CategoryCount(cats[1..], userId)
  }

  function TransactionCount(ts: seq<Transaction>, userId: int): nat {
    if ts == [] then 0 else (if ts[0].userId == userId then 1 else 0) + TransactionCount(ts[1..], userId)
  }

  /** A row of the user list: the selected columns and the two counts. */
  datatype UserRow = UserRow(id: int, firstName: string, lastName: string, email: string, role: string,
                             country: Option<string>, currency: Option<string>, createdAt: int,
                             expenseCount: nat, categoryCount: nat)

  function RowOf(u: User, cats: seq<Category>, ts: seq<Transaction>): UserRow {
    UserRow(u.id, u.firstName, u.lastName, u.email, u.role, u.country, u.currency, u.createdAt,
            TransactionCount(ts, u.id), CategoryCount(cats, u.id))
  }

  function RowsOf(us: seq<User>, cats: seq<Category>, ts: seq<Transaction>): (r: seq<UserRow>)
    ensures |r| == |us|
    ensures forall i :: 0 <= i < |us| ==> r[i] == RowOf(us[i], cats, ts)
  {
    seq(|us|, i requires 0 <= i < |us| => RowOf(us[i], cats, ts))
  }

  /** The users satisfying `w`, in table order. */
  function Matching(us: seq<User>, w: Where): (r: seq<User>)
    ensures |r| <= |us|
    ensures forall u {:trigger u in r} :: u in r <==> u in us && WhereHolds(w, u)
  {
    if us == [] then []
    else
      assert us == [us[0]] + us[1..];
      (if WhereHolds(w, us[0]) then [us[0]] else []) + Matching(us[1..], w)
  }

  /** The users a search and a role select, in table order. */
  function Selected(us: seq<User>, search: Option<string>, role: Option<string>): (r: seq<User>)
    ensures forall u {:trigger u in r} :: u in r <==> u in us && SearchMatches(search, u) && RoleMatches(role, u)
  {
    if us == [] then []
    else
      assert us == [us[0]] + us[1..];
      (if SearchMatches(search, us[0]) && RoleMatches(role, us[0]) then [us[0]] else []) + Selected(us[1..], search, role)
  }

  /** A `where` that means the search and the role selects exactly their users. */
  lemma {:induction false} MatchingIsSelected(us: seq<User>, w: Where, search: Option<string>, role: Option<string>)
    requires forall u :: WhereHolds(w, u) <==> SearchMatches(search, u) && RoleMatches(role, u)
    ensures Matching(us, w) == Selected(us, search, role)
  {
    if us != [] {
      MatchingIsSelected(us[1..], w, search, role);
    }
  }

  function CreatedAt(u: User): int {
    u.createdAt
  }

  lemma RowsKeepOrder(us: seq<User>, cats: seq<Category>, ts: seq<Transaction>)
    requires SortedDesc(us, CreatedAt)
    ensures forall i, j :: 0 <= i < j < |us| ==> RowsOf(us, cats, ts)[i].createdAt >= RowsOf(us, cats, ts)[j].createdAt
  {
    var rows := RowsOf(us, cats, ts);
    forall i, j | 0 <= i < j < |rows| ensures rows[i].createdAt >= rows[j].createdAt {
      assert CreatedAt(us[i]) >= CreatedAt(us[j]);
    }
  }

  /** Every row of a window of the sorted users is the row of one of the users. */
  lemma ShownRowsFromFound(found: seq<User>, skip: nat, take: nat, cats: seq<Category>, ts: seq<Transaction>)
    ensures forall i :: 0 <= i < |Slice(SortDesc(found, CreatedAt), skip, take)| ==>
              RowOf(Slice(SortDesc(found, CreatedAt), skip, take)[i], cats, ts) in RowsOf(found, cats, ts)
  {
    var ordered := SortDesc(found, CreatedAt);
    var shown := Slice(ordered, skip, take);
    var all := RowsOf(found, cats, ts);
    forall i | 0 <= i < |shown| ensures RowOf(shown[i], cats, ts) in all {
      var u := shown[i];
      assert u == ordered[skip + i];
      SortKeepsRows(found, CreatedAt, u);
      var k :| 0 <= k < |found| && found[k] == u;
      assert all[k] == RowOf(u, cats, ts);
    }
  }

  datatype UserPage = UserPage(users: seq<UserRow>, pagination: Pagination)

  /**
   * One page of a user list: the rows of `found`, newest first, inside the window, each with its counts;
   * the pagination counts all of `found`.
   */
  function PageOf(found: seq<User>, cats: seq<Category>, ts: seq<Transaction>, window: Window): (r: UserPage)
    ensures r.users == RowsOf(Slice(SortDesc(found, CreatedAt), window.skip, window.take), cats, ts)
    ensures |r.users| <= window.take
    ensures r.pagination == PaginationOf(window, |found|)
    ensures forall i :: 0 <= i < |r.users| ==> r.users[i] in RowsOf(found, cats, ts)
    ensures forall i, j :: 0 <= i < j < |r.users| ==> r.users[i].createdAt >= r.users[j].createdAt
  {
    var ordered := SortDesc(found, CreatedAt);
    var shown := Slice(ordered, window.skip, window.take);
    SliceKeepsOrder(ordered, window.skip, window.take, CreatedAt);
    var rows := RowsOf(shown, cats, ts);
    ShownRowsFromFound(found, window.skip, window.take, cats, ts);
    RowsKeepOrder(shown, cats, ts);
    UserPage(rows, PaginationOf(window, |found|))
  }

  /**
   * `getAllUsers`: the page of the users the search and the role select; a window the storage layer
   * refuses fails the request. A missing `page` is 1 and a missing `limit` 50, which the window reads as it
   * reads the texts "1" and "50". The `where` the handler builds selects exactly those users.
   */
  method GetAllUsers(db: Db, page: Option<string>, limit: Option<string>, search: Option<string>, role: Option<string>)
    returns (r: Outcome<UserPage>)
    ensures r.Err? <==> UserWindow(page.GetOr("1"), limit.GetOr("50")).Err?
    ensures r.Err? ==> r.error == StorageRejected()
    ensures r.Ok? ==> r.value == PageOf(Selected(db.users, search, role), db.categories, db.transactions,
                                        UserWindow(page.GetOr("1"), limit.GetOr("50")).value)
  {
    var w := BuildWhere(search, role);
    var window := UserWindow(page.GetOr("1"), limit.GetOr("50"));
    if window.Err? {
      return Err(window.error);
    }
    var found := Matching(db.users, w);
    MatchingIsSelected(db.users, w, search, role);
    r := Ok(PageOf(found, db.categories, db.transactions, window.value));
  }

  // ---------------------------------------------------------------- role changes and deletions

  /** What `prisma.user.update` throws when no row has the id (code `P2025`); the handler passes it on. */
  function MissingRecord(): AppError {
    Plain("PrismaClientKnownRequestError", "Record to update not found.")
  }

  predicate KnownRole(role: Option<string>) {
    role == Some("USER") || role == Some("ADMIN")
  }

  /** The guards of `updateUserRole` in order (the role first, then the caller's own id), then the lookup. */
  function RoleChangeRejection(users: seq<User>, id: int, actorId: int, role: Option<string>): (r: Option<AppError>)
    ensures !KnownRole(role) ==> r == Some(Validation("Validation Error"))
    ensures KnownRole(role) && id == actorId ==> r == Some(Validation("You cannot change your own role"))
    ensures KnownRole(role) && id != actorId && UserIndex(users, id).None? ==> r == Some(MissingRecord())
    ensures r.None? <==> KnownRole(role) && id != actorId && UserIndex(users, id).Some?
  {
    if !KnownRole(role) then Some(Validation("Validation Error"))
    else if id == actorId then Some(Validation("You cannot change your own role"))
    else if UserIndex(users, id).None? then Some(MissingRecord())
    else None
  }

  /** The selected columns of the updated user. */
  datatype RoleView = RoleView(id: int, firstName: string, lastName: string, email: string, role: string)

  function RoleViewOf(u: User): RoleView {
    RoleView(u.id, u.firstName, u.lastName, u.email, u.role)
  }

  /** With unique ids, a role change rewrites the one targeted row and leaves every other row as it was. */
  lemma RoleChangeTouchesOnlyTarget(users: seq<User>, id: int, role: string)
    requires UniqueUserIds(users) && UserIndex(users, id).Some?
    ensures var k := UserIndex(users, id).value;
            WithRole(users, id, role) == users[k := users[k].(role := role)]
  {
    var k := UserIndex(users, id).value;
    var r := WithRole(users, id, role);
    forall i | 0 <= i < |users| ensures r[i] == users[k := users[k].(role := role)][i] {
      if i != k {
        assert users[i].id != users[k].id;
      }
    }
  }

  /** `updateUserRole`: a rejected request writes nothing; otherwise the target's role is set. */
  method UpdateUserRole(db: Db, id: int, actorId: int, role: Option<string>) returns (r: Outcome<RoleView>)
    requires db.Valid()
    modifies db
    ensures db.Valid()
    ensures r.Err? <==> RoleChangeRejection(old(db.users), id, actorId, role).Some?
    ensures r.Err? ==> r.error == RoleChangeRejection(old(db.users), id, actorId, role).value && db.users == old(db.users)
    ensures r.Ok? ==> db.users == WithRole(old(db.users), id, role.value) &&
                      var k := UserIndex(old(db.users), id).value;
                      r.value == RoleViewOf(old(db.users)[k].(role := role.value))
    ensures db.categories == old(db.categories) && db.transactions == old(db.transactions)
    ensures db.nextUserId == old(db.nextUserId)
  {
    var rejection := RoleChangeRejection(db.users, id, actorId, role);
    if rejection.Some? {
      return Err(rejection.value);
    }
    var k := UserIndex(db.users, id).value;
    db.SetUserRole(id, role.value);
    r := Ok(RoleViewOf(db.users[k]));
  }

  /** The guard of `deleteUser`, then the lookup whose failure (`P2025`) becomes `User not found`. */
  function DeleteRejection(users: seq<User>, id: int, actorId: int): (r: Option<AppError>)
    ensures id == actorId ==> r == Some(Validation("You cannot delete your own account"))
    ensures id != actorId && UserIndex(users, id).None? ==> r == Some(NotFound("User not found"))
    ensures r.None? <==> id != actorId && UserIndex(users, id).Some?
  {
    if id == actorId then Some(Validation("You cannot delete your own account"))
    else if UserIndex(users, id).None? then Some(NotFound("User not found"))
    else None
  }

  /** With unique ids, dropping the row at the id's position drops exactly the users with that id. */
  lemma RemoveAtDropsId(users: seq<User>, k: nat)
    requires UniqueUserIds(users) && k < |users|
    ensures forall u :: u in users[..k] + users[k + 1..] <==> u in users && u.id != users[k].id
  {
    var r := users[..k] + users[k + 1..];
    forall u ensures u in r <==> u in users && u.id != users[k].id {
      if u in r {
        var i :| 0 <= i < |r| && r[i] == u;
        var j := if i < k then i else i + 1;
        assert users[j] == u && j != k;
      }
      if u in users && u.id != users[k].id {
        var j :| 0 <= j < |users| && users[j] == u;
        assert j != k;
        assert r[if j < k then j else j - 1] == u;
      }
    }
  }

  /**
   * `deleteUser`: a rejected request writes nothing; otherwise the user's row, and only it, leaves the user
   * table, and the user's categories and transactions are deleted with it.
   */
  method DeleteUser(db: Db, id: int, actorId: int) returns (r: Outcome<string>)
    requires db.Valid()
    modifies db
    ensures db.Valid()
    ensures r.Err? <==> DeleteRejection(old(db.users), id, actorId).Some?
    ensures r.Err? ==> r.error == DeleteRejection(old(db.users), id, actorId).value && db.users == old(db.users) &&
                       db.categories == old(db.categories) && db.transactions == old(db.transactions)
    ensures r.Ok? ==> r.value == "User deleted successfully" && |db.users| == |old(db.users)| - 1 &&
                      (forall u :: u in db.users <==> u in old(db.users) && u.id != id) &&
                      db.categories == CategoriesNotOf(old(db.categories), id) &&
                      db.transactions == TransactionsNotOf(old(db.transactions), id)
  {
    var rejection := DeleteRejection(db.users, id, actorId);
    if rejection.Some? {
      return Err(rejection.value);
    }
    var k := UserIndex(db.users, id).value;
    RemoveAtDropsId(db.users, k);
    db.RemoveUserAt(k);
    r := Ok("User deleted successfully");
  }

  // ---------------------------------------------------------------- global statistics

  /** A top-spender entry: the user's public columns, the sum of their amounts and how many there are. */
  datatype Spender = Spender(id: int, firstName: string, lastName: string, email: string, totalSpent: real,
                             transactionCount: nat)

  /** `reduce((sum, t) => sum + Number(t.amount), 0)` over the user's transactions. */
  function Spent(ts: seq<Transaction>, userId: int): real {
    if ts == [] then 0.0 else (if ts[0].userId == userId then ts[0].amount else 0.0) + Spent(ts[1..], userId)
  }

  /** Totals and counts split over a split table, so other users' rows never change a user's entry. */
  lemma {:induction false} SpentAppend(a: seq<Transaction>, b: seq<Transaction>, userId: int)
    ensures Spent(a + b, userId) == Spent(a, userId) + Spent(b, userId)
    ensures TransactionCount(a + b, userId) == TransactionCount(a, userId) + TransactionCount(b, userId)
  {
    if a == [] {
      assert a + b == b;
    } else {
      assert (a + b)[0] == a[0] && (a + b)[1..] == a[1..] + b;
      SpentAppend(a[1..], b, userId);
    }
  }

  function SpenderOf(u: User, ts: seq<Transaction>): Spender {
    Spender(u.id, u.firstName, u.lastName, u.email, Spent(ts, u.id), TransactionCount(ts, u.id))
  }

  predicate SortedBySpent(s: seq<Spender>) {
    forall i, j :: 0 <= i < j < |s| ==> s[i].totalSpent >= s[j].totalSpent
  }

  predicate SpentAtMost(s: seq<Spender>, b: real) {
    forall i :: 0 <= i < |s| ==> s[i].totalSpent <= b
  }

  /**
   * `x` placed before the first entry whose total is not above its own: inserting from the back this way
   * keeps equal totals in their original order, as the stable `sort` with `b.totalSpent - a.totalSpent` does.
   */
  function InsertBySpent(x: Spender, s: seq<Spender>): (r: seq<Spender>)
    ensures |r| == |s| + 1
    ensures multiset(r) == multiset(s) + multiset{x}
  {
    if s == [] || s[0].totalSpent <= x.totalSpent then [x] + s
    else
      assert s == [s[0]] + s[1..];
      [s[0]] + InsertBySpent(x, s[1..])
  }

  lemma {:induction false} InsertBySpentBound(x: Spender, s: seq<Spender>, b: real)
    requires SpentAtMost(s, b) && x.totalSpent <= b
    ensures SpentAtMost(InsertBySpent(x, s), b)
  {
    if !(s == [] || s[0].totalSpent <= x.totalSpent) {
      InsertBySpentBound(x, s[1..], b);
    }
  }

  lemma {:induction false} InsertBySpentSorted(x: Spender, s: seq<Spender>)
    requires SortedBySpent(s)
    ensures SortedBySpent(InsertBySpent(x, s))
  {
    if !(s == [] || s[0].totalSpent <= x.totalSpent) {
      InsertBySpentSorted(x, s[1..]);
      InsertBySpentBound(x, s[1..], s[0].totalSpent);
    }
  }

  /** The entries ordered by total, largest first. */
  function RankBySpent(s: seq<Spender>): (r: seq<Spender>)
    ensures |r| == |s|
    ensures multiset(r) == multiset(s)
    ensures SortedBySpent(r)
  {
    if s == [] then []
    else
      assert s == [s[0]] + s[1..];
      InsertBySpentSorted(s[0], RankBySpent(s[1..]));
      InsertBySpent(s[0], RankBySpent(s[1..]))
  }

  /** The entries of the first ten users of the table (`take: 10`, no order given). */
  function Candidates(users: seq<User>, ts: seq<Transaction>): (r: seq<Spender>)
    ensures |r| == Min(10, |users|)
    ensures forall i :: 0 <= i < |r| ==> r[i] == SpenderOf(users[i], ts)
  {
    seq(Min(10, |users|), i requires 0 <= i < Min(10, |users|) => SpenderOf(users[i], ts))
  }

  /**
   * The `topSpenders` of `getGlobalStats`: at most five entries of the first ten users, largest total
   * first, and no candidate left out has spent more than any entry kept.
   */
  function TopSpenders(users: seq<User>, ts: seq<Transaction>): (r: seq<Spender>)
    ensures |r| == Min(5, Min(10, |users|))
    ensures SortedBySpent(r)
    ensures multiset(r) <= multiset(Candidates(users, ts))
    ensures forall x :: x in r ==> x in Candidates(users, ts)
    ensures forall x :: x in Candidates(users, ts) && x !in r ==>
              forall j :: 0 <= j < |r| ==> x.totalSpent <= r[j].totalSpent
  {
    var candidates := Candidates(users, ts);
    var ranked := RankBySpent(candidates);
    var r := ranked[..Min(5, |ranked|)];
    TopOfRanked(candidates, ranked, r);
    r
  }

  lemma TopOfRanked(candidates: seq<Spender>, ranked: seq<Spender>, r: seq<Spender>)
    requires multiset(ranked) == multiset(candidates) && SortedBySpent(ranked)
    requires r == ranked[..Min(5, |ranked|)]
    ensures multiset(r) <= multiset(candidates)
    ensures forall x :: x in r ==> x in candidates
    ensures forall x :: x in candidates && x !in r ==> forall j :: 0 <= j < |r| ==> x.totalSpent <= r[j].totalSpent
  {
    assert ranked == r + ranked[|r|..];
    forall x | x in r ensures x in candidates {
      assert x in multiset(ranked);
    }
    forall x | x in candidates && x !in r ensures forall j :: 0 <= j < |r| ==> x.totalSpent <= r[j].totalSpent {
      assert x in multiset(ranked);
      var i :| 0 <= i < |ranked| && ranked[i] == x;
      assert i >= |r|;
    }
  }

  /** The entries of `s` whose total is `v`, in their order in `s`. */
  function WithSpent(s: seq<Spender>, v: real): (r: seq<Spender>)
    ensures forall i :: 0 <= i < |r| ==> r[i].totalSpent == v
  {
    if s == [] then []
    else (if s[0].totalSpent == v then [s[0]] else []) + WithSpent(s[1..], v)
  }

  lemma {:induction false} WithSpentAppend(a: seq<Spender>, b: seq<Spender>, v: real)
    ensures WithSpent(a + b, v) == WithSpent(a, v) + WithSpent(b, v)
  {
    if a == [] {
      assert a + b == b;
    } else {
      assert (a + b)[0] == a[0] && (a + b)[1..] == a[1..] + b;
      WithSpentAppend(a[1..], b, v);
    }
  }

  /** Inserting `x` puts it ahead of the entries that tie with it. */
  lemma {:induction false} InsertBySpentTies(x: Spender, s: seq<Spender>, v: real)
    ensures WithSpent(InsertBySpent(x, s), v) == (if x.totalSpent == v then [x] else []) + WithSpent(s, v)
  {
    assert WithSpent([x], v) == if x.totalSpent == v then [x] else [];
    if s == [] || s[0].totalSpent <= x.totalSpent {
      WithSpentAppend([x], s, v);
    } else {
      var head := [s[0]];
      assert s == head + s[1..];
      assert WithSpent(head, v) == if s[0].totalSpent == v then head else [];
      InsertBySpentTies(x, s[1..], v);
      WithSpentAppend(head, InsertBySpent(x, s[1..]), v);
      WithSpentAppend(head, s[1..], v);
    }
  }

  /** The ranking is stable: entries with the same total keep the order they had in `s`. */
  lemma {:induction false} RankIsStable(s: seq<Spender>, v: real)
    ensures WithSpent(RankBySpent(s), v) == WithSpent(s, v)
  {
    if s != [] {
      InsertBySpentTies(s[0], RankBySpent(s[1..]), v);
      RankIsStable(s[1..], v);
    }
  }

  /**
   * Among the candidates that tie at a total, the top spenders keep the first ones in table order: the
   * kept entries with total `v` are a prefix of the candidates with total `v`.
   */
  lemma TopSpendersTies(users: seq<User>, ts: seq<Transaction>, v: real)
    ensures |WithSpent(TopSpenders(users, ts), v)| <= |WithSpent(Candidates(users, ts), v)|
    ensures WithSpent(TopSpenders(users, ts), v) ==
            WithSpent(Candidates(users, ts), v)[..|WithSpent(TopSpenders(users, ts), v)|]
  {
    var candidates := Candidates(users, ts);
    var ranked := RankBySpent(candidates);
    var r := ranked[..Min(5, |ranked|)];
    assert TopSpenders(users, ts) == r;
    assert ranked == r + ranked[|r|..];
    WithSpentAppend(r, ranked[|r|..], v);
    RankIsStable(candidates, v);
  }

  // ---------------------------------------------------------------- account creation by an admin

  /** The selected columns of a created user. */
  datatype CreatedUser = CreatedUser(id: int, firstName: string, lastName: string, email: string, role: string,
                                     country: Option<string>, currency: Option<string>, createdAt: int)

  function CreatedView(u: User): CreatedUser {
    CreatedUser(u.id, u.firstName, u.lastName, u.email, u.role, u.country, u.currency, u.createdAt)
  }

  /**
   * `createUser`: the checks of `register` with its own conflict message; an accepted account gets the
   * given country and currency, `US` and `USD` when they are missing or empty, then its default categories.
   */
  method CreateUser(db: Db, b: Signup, country: Option<string>, currency: Option<string>, hash: string -> string,
                    now: int) returns (r: Outcome<CreatedUser>)
    requires db.Valid()
    modifies db
    ensures db.Valid()
    ensures r.Err? <==> SignupRejection(old(db.users), b, "Email is already registered").Some?
    ensures r.Err? ==> r.error == SignupRejection(old(db.users), b, "Email is already registered").value &&
                       db.users == old(db.users) && db.categories == old(db.categories)
    ensures r.Ok? ==> var u := NewAccount(old(db.nextUserId), b, hash, now, Some(ErrorHandler.OrText(country, "US")),
                                          Some(ErrorHandler.OrText(currency, "USD")));
                      db.users == old(db.users) + [u] &&
                      db.categories == old(db.categories) + DefaultRows(u.id, old(db.nextCategoryId)) &&
                      r.value == CreatedView(u)
    ensures db.transactions == old(db.transactions)
  {
    var rejection := SignupRejection(db.users, b, "Email is already registered");
    if rejection.Some? {
      return Err(rejection.value);
    }
    var user := NewAccount(db.nextUserId, b, hash, now, Some(ErrorHandler.OrText(country, "US")),
                           Some(ErrorHandler.OrText(currency, "USD")));
    db.InsertUser(user);
    CreateDefaultCategories(db, user.id);
    r := Ok(CreatedView(user));
  }
}
