/**
 * The three tables the controllers read and write, as an in-memory store. Ids are assigned from
 * counters, standing in for the database's autoincrement; a table's order is its storage order.
 */
module Database {
  import opened Wrappers

  datatype User = User(
    id: int,
    email: string,
    firstName: string,
    lastName: string,
    passwordHash: string,
    role: string,
    country: Option<string>,   // None: the column default
    currency: Option<string>,  // None: the column default
    createdAt: int)

  datatype Category = Category(
    id: int,
    userId: int,
    name: string,
    color: string,
    icon: string,
    categoryType: string,
    isDefault: bool)

  datatype Transaction = Transaction(
    id: int,
    userId: int,
    amount: real,
    description: string,
    date: int,
    categoryId: int,
    notes: Option<string>,
    receiptUrl: Option<string>)

  /** The `where` of a category lookup: id, owner and, when a non-empty type is given, type. */
  predicate CategoryMatches(c: Category, id: int, userId: int, categoryType: Option<string>) {
    c.id == id && c.userId == userId &&
    (categoryType.Some? && categoryType.value != "" ==> c.categoryType == categoryType.value)
  }

  /** `prisma.category.findFirst({ where })`. */
  function FindCategory(cats: seq<Category>, id: int, userId: int, categoryType: Option<string>): (r: Option<Category>)
    ensures r.Some? ==> r.value in cats && CategoryMatches(r.value, id, userId, categoryType)
    ensures r.None? <==> forall c :: c in cats ==> !CategoryMatches(c, id, userId, categoryType)
  {
    if cats == [] then None
    else if CategoryMatches(cats[0], id, userId, categoryType) then Some(cats[0])
    else FindCategory(cats[1..], id, userId, categoryType)
  }

  /** The type of the category a transaction references (the `category` relation of a transaction). */
  function CategoryTypeOf(cats: seq<Category>, categoryId: int): (r: Option<string>)
    ensures r.Some? ==> exists c :: c in cats && c.id == categoryId && c.categoryType == r.value
    ensures r.None? ==> forall c :: c in cats ==> c.id != categoryId
  {
    if cats == [] then None
    else if cats[0].id == categoryId then Some(cats[0].categoryType)
    else CategoryTypeOf(cats[1..], categoryId)
  }

  /** With unique category ids, the referenced category is the one with that id. */
  lemma {:induction false} CategoryTypeOfUnique(cats: seq<Category>, c: Category)
    requires UniqueCategoryIds(cats) && c in cats
    ensures CategoryTypeOf(cats, c.id) == Some(c.categoryType)
  {
    if cats[0] != c {
      assert c in cats[1..];
      assert UniqueCategoryIds(cats[1..]) by {
        forall i, j | 0 <= i < j < |cats[1..]| ensures cats[1..][i].id != cats[1..][j].id {
          assert cats[1..][i] == cats[i + 1] && cats[1..][j] == cats[j + 1];
        }
      }
      var k :| 0 <= k < |cats| && cats[k] == c;
      assert cats[0].id != c.id;
      CategoryTypeOfUnique(cats[1..], c);
    }
  }

  /** Looking up a category is unaffected by categories appended later, once it is found. */
  lemma {:induction false} CategoryTypeOfAppend(cats: seq<Category>, more: seq<Category>, id: int)
    requires CategoryTypeOf(cats, id).Some?
    ensures CategoryTypeOf(cats + more, id) == CategoryTypeOf(cats, id)
  {
    if cats[0].id != id {
      assert (cats + more)[1..] == cats[1..] + more;
      CategoryTypeOfAppend(cats[1..], more, id);
    }
  }

  lemma {:induction false} FindCategoryAppend(cats: seq<Category>, more: seq<Category>, id: int, userId: int)
    requires FindCategory(cats, id, userId, None).Some?
    ensures FindCategory(cats + more, id, userId, None).Some?
  {
    if !CategoryMatches(cats[0], id, userId, None) {
      assert (cats + more)[1..] == cats[1..] + more;
      FindCategoryAppend(cats[1..], more, id, userId);
    }
  }

  predicate UniqueUserIds(us: seq<User>) {
    forall i, j :: 0 <= i < j < |us| ==> us[i].id != us[j].id
  }

  predicate UniqueEmails(us: seq<User>) {
    forall i, j :: 0 <= i < j < |us| ==> us[i].email != us[j].email
  }

  predicate UniqueCategoryIds(cs: seq<Category>) {
    forall i, j :: 0 <= i < j < |cs| ==> cs[i].id != cs[j].id
  }

  predicate UniqueTransactionIds(ts: seq<Transaction>) {
    forall i, j :: 0 <= i < j < |ts| ==> ts[i].id != ts[j].id
  }

  /** Every transaction references a category that belongs to the transaction's owner. */
  predicate CategoriesOwned(ts: seq<Transaction>, cats: seq<Category>) {
    forall i :: 0 <= i < |ts| ==> FindCategory(cats, ts[i].categoryId, ts[i].userId, None).Some?
  }

  /** `prisma.user.findUnique({ where: { email } })`. */
  function FindUserByEmail(us: seq<User>, email: string): (r: Option<User>)
    ensures r.Some? ==> r.value in us && r.value.email == email
    ensures r.None? <==> forall i :: 0 <= i < |us| ==> us[i].email != email
  {
    if us == [] then None
    else if us[0].email == email then Some(us[0])
    else
      assert forall i :: 1 <= i < |us| ==> us[i] == us[1..][i - 1];
      FindUserByEmail(us[1..], email)
  }

  /** The position of the user with this id: `prisma.user.findUnique({ where: { id } })`. */
  function UserIndex(us: seq<User>, id: int): (r: Option<nat>)
    ensures r.Some? ==> r.value < |us| && us[r.value].id == id
    ensures r.None? <==> forall i :: 0 <= i < |us| ==> us[i].id != id
  {
    if us == [] then None
    else if us[0].id == id then Some(0)
    else
      assert forall i :: 1 <= i < |us| ==> us[i] == us[1..][i - 1];
      var k := UserIndex(us[1..], id);
      if k.Some? then Some(k.value + 1) else None
  }

  /** `prisma.user.update({ where: { id }, data: { role } })` on the stored rows. */
  function WithRole(us: seq<User>, id: int, role: string): (r: seq<User>)
    ensures |r| == |us|
    ensures forall i :: 0 <= i < |us| ==> r[i] == if us[i].id == id then us[i].(role := role) else us[i]
  {
    seq(|us|, i requires 0 <= i < |us| => if us[i].id == id then us[i].(role := role) else us[i])
  }

  /** `prisma.transaction.update({ where: { id } })`: the row with this id replaced by `t`. */
  function ReplaceById(ts: seq<Transaction>, t: Transaction): (r: seq<Transaction>)
    ensures |r| == |ts|
    ensures forall i :: 0 <= i < |ts| ==> r[i] == if ts[i].id == t.id then t else ts[i]
  {
    if ts == [] then []
    else [if ts[0].id == t.id then t else ts[0]] + ReplaceById(ts[1..], t)
  }

  /** Replacing a row by one with the same id keeps every row's id. */
  lemma ReplaceKeepsIds(ts: seq<Transaction>, u: Transaction)
    ensures forall i :: 0 <= i < |ts| ==> ReplaceById(ts, u)[i].id == ts[i].id
  {
  }

  /** Replacing a row by one with an owned category keeps every transaction's category owned. */
  lemma ReplaceKeepsOwned(ts: seq<Transaction>, cats: seq<Category>, u: Transaction)
    requires CategoriesOwned(ts, cats)
    requires FindCategory(cats, u.categoryId, u.userId, None).Some?
    ensures CategoriesOwned(ReplaceById(ts, u), cats)
  {
    var r := ReplaceById(ts, u);
    forall i | 0 <= i < |r| ensures FindCategory(cats, r[i].categoryId, r[i].userId, None).Some? {
      if ts[i].id != u.id {
        assert r[i] == ts[i];
      } else {
        assert r[i] == u;
      }
    }
  }

  /** Replacing a row by one with the same id and an owned category keeps the table's keys. */
  lemma UpdateKeepsValid(ts: seq<Transaction>, cats: seq<Category>, u: Transaction)
    requires UniqueTransactionIds(ts) && CategoriesOwned(ts, cats)
    requires FindCategory(cats, u.categoryId, u.userId, None).Some?
    ensures UniqueTransactionIds(ReplaceById(ts, u)) && CategoriesOwned(ReplaceById(ts, u), cats)
    ensures forall i :: 0 <= i < |ts| ==> ReplaceById(ts, u)[i].id == ts[i].id
  {
    ReplaceKeepsIds(ts, u);
    ReplaceKeepsOwned(ts, cats, u);
    var r := ReplaceById(ts, u);
    forall i, j | 0 <= i < j < |r| ensures r[i].id != r[j].id {
      assert r[i].id == ts[i].id && r[j].id == ts[j].id;
    }
  }

  /** `prisma.transaction.delete({ where: { id } })`: every row with this id removed, the rest in order. */
  function RemoveById(ts: seq<Transaction>, id: int): (r: seq<Transaction>)
    ensures forall t {:trigger t in r} :: t in r <==> t in ts && t.id != id
  {
    if ts == [] then []
    else
      assert ts == [ts[0]] + ts[1..];
      (if ts[0].id == id then [] else [ts[0]]) + RemoveById(ts[1..], id)
  }

  lemma {:induction false} RemoveByIdAppend(a: seq<Transaction>, b: seq<Transaction>, id: int)
    ensures RemoveById(a + b, id) == RemoveById(a, id) + RemoveById(b, id)
  {
    if a != [] {
      var head: seq<Transaction> := if a[0].id == id then [] else [a[0]];
      assert (a + b)[0] == a[0];
      assert (a + b)[1..] == a[1..] + b;
      assert RemoveById(a + b, id) == head + RemoveById(a[1..] + b, id);
      RemoveByIdAppend(a[1..], b, id);
      assert RemoveById(a, id) == head + RemoveById(a[1..], id);
    } else {
      assert a + b == b;
    }
  }

  lemma {:induction false} RemoveAbsentId(ts: seq<Transaction>, id: int)
    requires forall t :: t in ts ==> t.id != id
    ensures RemoveById(ts, id) == ts
  {
    if ts != [] {
      assert ts == [ts[0]] + ts[1..];
      RemoveAbsentId(ts[1..], id);
    }
  }

  /** With unique ids, delete removes exactly the matched row and keeps every other row, in order. */
  lemma DeleteRemovesOne(ts: seq<Transaction>, k: nat)
    requires UniqueTransactionIds(ts) && k < |ts|
    ensures RemoveById(ts, ts[k].id) == ts[..k] + ts[k + 1..]
    ensures |RemoveById(ts, ts[k].id)| == |ts| - 1
  {
    var id := ts[k].id;
    var a, b := ts[..k], ts[k + 1..];
    assert ts == (a + [ts[k]]) + b;
    RemoveByIdAppend(a + [ts[k]], b, id);
    RemoveByIdAppend(a, [ts[k]], id);
    assert RemoveById([ts[k]], id) == [] by {
      assert [ts[k]][1..] == [];
    }
    OthersHaveOtherIds(ts, k);
    RemoveAbsentId(a, id);
    RemoveAbsentId(b, id);
  }

  /** With unique ids, no row before or after position `k` has the id of row `k`. */
  lemma OthersHaveOtherIds(ts: seq<Transaction>, k: nat)
    requires UniqueTransactionIds(ts) && k < |ts|
    ensures forall t :: t in ts[..k] ==> t.id != ts[k].id
    ensures forall t :: t in ts[k + 1..] ==> t.id != ts[k].id
  {
    forall t | t in ts[..k] ensures t.id != ts[k].id {
      var i :| 0 <= i < k && ts[..k][i] == t;
      assert ts[i] == t;
    }
    forall t | t in ts[k + 1..] ensures t.id != ts[k].id {
      var i :| 0 <= i < |ts| - k - 1 && ts[k + 1..][i] == t;
      assert ts[k + 1 + i] == t;
    }
  }

  lemma DeleteKeepsValid(ts: seq<Transaction>, cats: seq<Category>, k: nat)
    requires UniqueTransactionIds(ts) && CategoriesOwned(ts, cats) && k < |ts|
    ensures UniqueTransactionIds(ts[..k] + ts[k + 1..]) && CategoriesOwned(ts[..k] + ts[k + 1..], cats)
    ensures forall t :: t in ts[..k] + ts[k + 1..] ==> t in ts
  {
    var r := ts[..k] + ts[k + 1..];
    assert forall i :: 0 <= i < |r| ==> r[i] == ts[if i < k then i else i + 1];
  }
  /** Appending a row with the next id and an owned category keeps the table's keys. */
  lemma AppendKeepsValid(ts: seq<Transaction>, cats: seq<Category>, t: Transaction, next: int)
    requires UniqueTransactionIds(ts) && CategoriesOwned(ts, cats)
    requires forall i :: 0 <= i < |ts| ==> ts[i].id < next
    requires t.id == next && FindCategory(cats, t.categoryId, t.userId, None).Some?
    ensures UniqueTransactionIds(ts + [t]) && CategoriesOwned(ts + [t], cats)
    ensures forall i :: 0 <= i < |ts + [t]| ==> (ts + [t])[i].id < next + 1
    ensures forall u :: u in ts ==> u.id != t.id
  {
    var r := ts + [t];
    assert forall i :: 0 <= i < |ts| ==> r[i] == ts[i];
    forall u | u in ts ensures u.id != t.id {
      var i :| 0 <= i < |ts| && ts[i] == u;
    }
  }


  /** Removing rows keeps the keys unique, the categories owned, and every remaining row is an old one. */
  lemma RemoveKeepsValid(ts: seq<Transaction>, cats: seq<Category>, id: int)
    requires UniqueTransactionIds(ts) && CategoriesOwned(ts, cats)
    ensures UniqueTransactionIds(RemoveById(ts, id)) && CategoriesOwned(RemoveById(ts, id), cats)
    ensures forall i :: 0 <= i < |RemoveById(ts, id)| ==> RemoveById(ts, id)[i] in ts
  {
    var r := RemoveById(ts, id);
    assert forall i :: 0 <= i < |r| ==> r[i] in r;
    if k :| 0 <= k < |ts| && ts[k].id == id {
      DeleteRemovesOne(ts, k);
      DeleteKeepsValid(ts, cats, k);
    } else {
      RemoveAbsentId(ts, id);
    }
  }

  /** Appending a category with the next id keeps category ids unique and every transaction's category found. */
  lemma AppendCategoryKeepsValid(ts: seq<Transaction>, cats: seq<Category>, c: Category, next: int)
    requires UniqueCategoryIds(cats) && CategoriesOwned(ts, cats)
    requires forall i :: 0 <= i < |cats| ==> cats[i].id < next
    requires c.id == next
    ensures UniqueCategoryIds(cats + [c]) && CategoriesOwned(ts, cats + [c])
    ensures forall i :: 0 <= i < |cats + [c]| ==> (cats + [c])[i].id < next + 1
  {
    var r := cats + [c];
    assert forall i :: 0 <= i < |cats| ==> r[i] == cats[i];
    forall i | 0 <= i < |ts| ensures FindCategory(r, ts[i].categoryId, ts[i].userId, None).Some? {
      FindCategoryAppend(cats, [c], ts[i].categoryId, ts[i].userId);
    }
  }

  /** A stored transaction's category is found for its owner. */
  lemma OwnedRowCategory(ts: seq<Transaction>, cats: seq<Category>, t: Transaction)
    requires CategoriesOwned(ts, cats) && t in ts
    ensures FindCategory(cats, t.categoryId, t.userId, None).Some?
  {
    var i :| 0 <= i < |ts| && ts[i] == t;
  }

  /** No stored row has an id at or above the counter. */
  lemma NextIdIsFresh(ts: seq<Transaction>, next: int)
    requires forall i :: 0 <= i < |ts| ==> ts[i].id < next
    ensures forall u :: u in ts ==> u.id != next
  {
    forall u | u in ts ensures u.id != next {
      var i :| 0 <= i < |ts| && ts[i] == u;
    }
  }

  /** The transactions owned by users other than `userId`, in table order. */
  function TransactionsNotOf(ts: seq<Transaction>, userId: int): (r: seq<Transaction>)
    ensures forall t {:trigger t in r} :: t in r <==> t in ts && t.userId != userId
  {
    if ts == [] then []
    else
      assert ts == [ts[0]] + ts[1..];
      (if ts[0].userId == userId then [] else [ts[0]]) + TransactionsNotOf(ts[1..], userId)
  }

  /** The categories owned by users other than `userId`, in table order. */
  function CategoriesNotOf(cs: seq<Category>, userId: int): (r: seq<Category>)
    ensures forall c {:trigger c in r} :: c in r <==> c in cs && c.userId != userId
  {
    if cs == [] then []
    else
      assert cs == [cs[0]] + cs[1..];
      (if cs[0].userId == userId then [] else [cs[0]]) + CategoriesNotOf(cs[1..], userId)
  }

  /** Dropping one owner's transactions keeps the remaining ids unique. */
  lemma {:induction false} TransactionsNotOfUnique(ts: seq<Transaction>, userId: int)
    requires UniqueTransactionIds(ts)
    ensures UniqueTransactionIds(TransactionsNotOf(ts, userId))
  {
    if ts != [] {
      var tail := ts[1..];
      assert forall i :: 0 <= i < |tail| ==> tail[i] == ts[i + 1];
      TransactionsNotOfUnique(tail, userId);
      var rest := TransactionsNotOf(tail, userId);
      forall i | 0 <= i < |rest| ensures rest[i].id != ts[0].id {
        assert rest[i] in rest;
        var j :| 0 <= j < |tail| && tail[j] == rest[i];
      }
    }
  }

  /** Dropping one owner's categories keeps the remaining ids unique. */
  lemma {:induction false} CategoriesNotOfUnique(cs: seq<Category>, userId: int)
    requires UniqueCategoryIds(cs)
    ensures UniqueCategoryIds(CategoriesNotOf(cs, userId))
  {
    if cs != [] {
      var tail := cs[1..];
      assert forall i :: 0 <= i < |tail| ==> tail[i] == cs[i + 1];
      CategoriesNotOfUnique(tail, userId);
      var rest := CategoriesNotOf(tail, userId);
      forall i | 0 <= i < |rest| ensures rest[i].id != cs[0].id {
        assert rest[i] in rest;
        var j :| 0 <= j < |tail| && tail[j] == rest[i];
      }
    }
  }

  /** Dropping one user keeps ids and emails unique and below the counter. */
  lemma RemoveUserKeepsKeys(us: seq<User>, k: nat, next: int, r: seq<User>)
    requires UniqueUserIds(us) && UniqueEmails(us) && k < |us|
    requires forall i :: 0 <= i < |us| ==> us[i].id < next
    requires r == us[..k] + us[k + 1..]
    ensures UniqueUserIds(r) && UniqueEmails(r)
    ensures forall i :: 0 <= i < |r| ==> r[i].id < next
  {
    assert forall i :: 0 <= i < |r| ==> r[i] == us[if i < k then i else i + 1];
  }

  /** Dropping one owner's categories keeps the ids below the counter. */
  lemma CategoriesNotOfBelow(cs: seq<Category>, userId: int, next: int)
    requires forall i :: 0 <= i < |cs| ==> cs[i].id < next
    ensures forall i :: 0 <= i < |CategoriesNotOf(cs, userId)| ==> CategoriesNotOf(cs, userId)[i].id < next
  {
    var r := CategoriesNotOf(cs, userId);
    forall i | 0 <= i < |r| ensures r[i].id < next {
      assert r[i] in r;
      var j :| 0 <= j < |cs| && cs[j] == r[i];
    }
  }

  /** Dropping one owner's transactions keeps the ids below the counter. */
  lemma TransactionsNotOfBelow(ts: seq<Transaction>, userId: int, next: int)
    requires forall i :: 0 <= i < |ts| ==> ts[i].id < next
    ensures forall i :: 0 <= i < |TransactionsNotOf(ts, userId)| ==> TransactionsNotOf(ts, userId)[i].id < next
  {
    var r := TransactionsNotOf(ts, userId);
    forall i | 0 <= i < |r| ensures r[i].id < next {
      assert r[i] in r;
      var j :| 0 <= j < |ts| && ts[j] == r[i];
    }
  }

  /** A remaining transaction's category has the same owner, so it remains too. */
  lemma CascadeKeepsOwned(ts: seq<Transaction>, cats: seq<Category>, userId: int)
    requires CategoriesOwned(ts, cats)
    ensures CategoriesOwned(TransactionsNotOf(ts, userId), CategoriesNotOf(cats, userId))
  {
    var rts, rcats := TransactionsNotOf(ts, userId), CategoriesNotOf(cats, userId);
    forall i | 0 <= i < |rts| ensures FindCategory(rcats, rts[i].categoryId, rts[i].userId, None).Some? {
      var t := rts[i];
      assert t in rts;
      OwnedRowCategory(ts, cats, t);
      var c := FindCategory(cats, t.categoryId, t.userId, None).value;
      assert c in rcats && CategoryMatches(c, t.categoryId, t.userId, None);
    }
  }

  /** The tables, with the counters the next inserted rows take their ids from. */
  class Db {
    var users: seq<User>
    var categories: seq<Category>
    var transactions: seq<Transaction>
    var nextUserId: int
    var nextCategoryId: int
    var nextTransactionId: int

    /** Unique keys, ids below their counters, and owned categories for every transaction. */
    ghost predicate Valid()
      reads this
    {
      UniqueUserIds(users) && UniqueEmails(users) && UniqueCategoryIds(categories) &&
      UniqueTransactionIds(transactions) &&
      (forall i :: 0 <= i < |users| ==> users[i].id < nextUserId) &&
      (forall i :: 0 <= i < |categories| ==> categories[i].id < nextCategoryId) &&
      (forall i :: 0 <= i < |transactions| ==> transactions[i].id < nextTransactionId) &&
      CategoriesOwned(transactions, categories)
    }

    constructor ()
      ensures Valid()
      ensures users == [] && categories == [] && transactions == []
      ensures nextUserId == 1 && nextCategoryId == 1 && nextTransactionId == 1
    {
      users, categories, transactions := [], [], [];
      nextUserId, nextCategoryId, nextTransactionId := 1, 1, 1;
    }

    /** `prisma.transaction.create`: the row is appended and the id counter moves on. */
    method InsertTransaction(t: Transaction)
      requires Valid()
      requires t.id == nextTransactionId && FindCategory(categories, t.categoryId, t.userId, None).Some?
      modifies this
      ensures Valid()
      ensures transactions == old(transactions) + [t] && nextTransactionId == old(nextTransactionId) + 1
      ensures users == old(users) && categories == old(categories)
      ensures nextUserId == old(nextUserId) && nextCategoryId == old(nextCategoryId)
    {
      AppendKeepsValid(transactions, categories, t, nextTransactionId);
      transactions := transactions + [t];
      nextTransactionId := nextTransactionId + 1;
    }

    /** `prisma.transaction.update({ where: { id } })`. */
    method ReplaceTransaction(t: Transaction)
      requires Valid()
      requires FindCategory(categories, t.categoryId, t.userId, None).Some?
      modifies this
      ensures Valid()
      ensures transactions == ReplaceById(old(transactions), t)
      ensures users == old(users) && categories == old(categories)
      ensures nextUserId == old(nextUserId) && nextCategoryId == old(nextCategoryId) &&
              nextTransactionId == old(nextTransactionId)
    {
      UpdateKeepsValid(transactions, categories, t);
      transactions := ReplaceById(transactions, t);
    }

    /** `prisma.transaction.delete({ where: { id } })`. */
    method RemoveTransaction(id: int)
      requires Valid()
      modifies this
      ensures Valid()
      ensures transactions == RemoveById(old(transactions), id)
      ensures users == old(users) && categories == old(categories)
      ensures nextUserId == old(nextUserId) && nextCategoryId == old(nextCategoryId) &&
              nextTransactionId == old(nextTransactionId)
    {
      RemoveKeepsValid(transactions, categories, id);
      var r := RemoveById(transactions, id);
      forall i | 0 <= i < |r| ensures r[i].id < nextTransactionId {
        var j :| 0 <= j < |transactions| && transactions[j] == r[i];
      }
      transactions := r;
    }

    /** `prisma.category.create`: the row is appended and the id counter moves on. */
    method InsertCategory(c: Category)
      requires Valid()
      requires c.id == nextCategoryId
      modifies this
      ensures Valid()
      ensures categories == old(categories) + [c] && nextCategoryId == old(nextCategoryId) + 1
      ensures users == old(users) && transactions == old(transactions)
      ensures nextUserId == old(nextUserId) && nextTransactionId == old(nextTransactionId)
    {
      AppendCategoryKeepsValid(transactions, categories, c, nextCategoryId);
      categories := categories + [c];
      nextCategoryId := nextCategoryId + 1;
    }

    /** `prisma.user.create`: the row is appended and the id counter moves on. */
    method InsertUser(u: User)
      requires Valid()
      requires u.id == nextUserId && FindUserByEmail(users, u.email).None?
      modifies this
      ensures Valid()
      ensures users == old(users) + [u] && nextUserId == old(nextUserId) + 1
      ensures categories == old(categories) && transactions == old(transactions)
      ensures nextCategoryId == old(nextCategoryId) && nextTransactionId == old(nextTransactionId)
    {
      users := users + [u];
      nextUserId := nextUserId + 1;
    }

    /** `prisma.user.update({ where: { id }, data: { role } })`. */
    method SetUserRole(id: int, role: string)
      requires Valid()
      modifies this
      ensures Valid()
      ensures users == WithRole(old(users), id, role)
      ensures categories == old(categories) && transactions == old(transactions)
      ensures nextUserId == old(nextUserId) && nextCategoryId == old(nextCategoryId) &&
              nextTransactionId == old(nextTransactionId)
    {
      users := WithRole(users, id, role);
    }

    /**
     * `prisma.user.delete` with the user's relations cascading: the row at position `k` leaves the table,
     * the others keep their order, and the user's categories and transactions are deleted with it.
     */
    method RemoveUserAt(k: nat)
      requires Valid() && k < |users|
      modifies this
      ensures Valid()
      ensures users == old(users)[..k] + old(users)[k + 1..]
      ensures categories == CategoriesNotOf(old(categories), old(users)[k].id)
      ensures transactions == TransactionsNotOf(old(transactions), old(users)[k].id)
      ensures nextUserId == old(nextUserId) && nextCategoryId == old(nextCategoryId) &&
              nextTransactionId == old(nextTransactionId)
    {
      var owner := users[k].id;
      RemoveUserKeepsKeys(users, k, nextUserId, users[..k] + users[k + 1..]);
      CategoriesNotOfUnique(categories, owner);
      TransactionsNotOfUnique(transactions, owner);
      CategoriesNotOfBelow(categories, owner, nextCategoryId);
      TransactionsNotOfBelow(transactions, owner, nextTransactionId);
      CascadeKeepsOwned(transactions, categories, owner);
      users := users[..k] + users[k + 1..];
      categories := CategoriesNotOf(categories, owner);
      transactions := TransactionsNotOf(transactions, owner);
    }
  }
}
