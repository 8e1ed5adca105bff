/**
 * The read side of the expense and income controllers: the list query (its `where` object, ordering
 * and pagination) and the lookup of one transaction. The two controllers differ only in the category
 * type they scope to, so both are one model parameterised by `Kind`.
 */
module TransactionQueries {
  import opened Wrappers
  import opened Strings
  import opened JsNumbers
  import opened Errors
  import opened Database
  import opened Sorting
  import opened Paging

  datatype Kind = Expense | Income

  /** The category type a controller is scoped to. */
  function KindName(k: Kind): string {
    match k
    case Expense => "expense"
    case Income => "income"
  }

  function NotFoundMessage(k: Kind): string {
    match k
    case Expense => "Expense not found"
    case Income => "Income not found"
  }

  /**
   * An argument of a storage query or write: left out, a value, or a value the storage layer refuses
   * (NaN, an Invalid Date, a number where text is expected).
   */
  datatype Arg<+T> = Absent | Given(value: T) | Refused

  function NumberArg<T>(v: Option<T>): Arg<T> {
    if v.Some? then Given(v.value) else Refused
  }

  /** A query-string value takes part when it is present and not empty (JavaScript truthiness). */
  predicate Supplied(v: Option<string>) {
    v.Some? && v.value != ""
  }

  datatype ListQuery = ListQuery(
    startDate: Option<string>,
    endDate: Option<string>,
    categoryId: Option<string>,
    minAmount: Option<string>,
    maxAmount: Option<string>,
    search: Option<string>,
    page: Option<string>,
    limit: Option<string>)

  /** The `where` object of a list query. */
  datatype Filter = Filter(
    userId: int,
    categoryType: string,
    dateFrom: Option<int>,
    dateTo: Option<int>,
    categoryId: Arg<int>,
    amountFrom: Arg<real>,
    amountTo: Arg<real>,
    search: Option<string>)

  /** A filter the storage layer accepts: no NaN among its values. */
  predicate Runnable(f: Filter) {
    !f.categoryId.Refused? && !f.amountFrom.Refused? && !f.amountTo.Refused?
  }

  /** All the filter's conditions hold of `t` (Prisma combines the keys of a `where` with AND). */
  predicate Matches(f: Filter, cats: seq<Category>, t: Transaction) {
    t.userId == f.userId && CategoryTypeOf(cats, t.categoryId) == Some(f.categoryType) &&
    (f.dateFrom.Some? ==> t.date >= f.dateFrom.value) &&
    (f.dateTo.Some? ==> t.date <= f.dateTo.value) &&
    (f.categoryId.Given? ==> t.categoryId == f.categoryId.value) &&
    (f.amountFrom.Given? ==> t.amount >= f.amountFrom.value) &&
    (f.amountTo.Given? ==> t.amount <= f.amountTo.value) &&
    (f.search.Some? ==> ContainsInsensitive(t.description, f.search.value))
  }

  /**
   * The filter a list query produces: always the caller and the controller's category type, then one
   * condition per supplied query value; a date the date parser refuses is an error.
   */
  function QueryFilter(userId: int, kind: Kind, q: ListQuery, parseDate: string -> Option<int>): (r: Outcome<Filter>)
    ensures r.Err? <==> (Supplied(q.startDate) && parseDate(q.startDate.value).None?) ||
                        (Supplied(q.endDate) && parseDate(q.endDate.value).None?)
    ensures r.Err? ==> r.error == Validation(if Supplied(q.startDate) && parseDate(q.startDate.value).None?
                                             then "Invalid startDate format" else "Invalid endDate format")
    ensures r.Ok? ==> r.value.userId == userId && r.value.categoryType == KindName(kind)
  {
    if Supplied(q.startDate) && parseDate(q.startDate.value).None? then Err(Validation("Invalid startDate format"))
    else if Supplied(q.endDate) && parseDate(q.endDate.value).None? then Err(Validation("Invalid endDate format"))
    else
      Ok(Filter(
        userId, KindName(kind),
        if Supplied(q.startDate) then parseDate(q.startDate.value) else None,
        if Supplied(q.endDate) then parseDate(q.endDate.value) else None,
        if Supplied(q.categoryId) then NumberArg(ParseInt(q.categoryId.value)) else Absent,
        if Supplied(q.minAmount) then NumberArg(ParseFloat(q.minAmount.value)) else Absent,
        if Supplied(q.maxAmount) then NumberArg(ParseFloat(q.maxAmount.value)) else Absent,
        if Supplied(q.search) then q.search else None))
  }

  /** The `where` object assembled one key at a time, as the controllers do. */
  method BuildFilter(userId: int, kind: Kind, q: ListQuery, parseDate: string -> Option<int>) returns (r: Outcome<Filter>)
    ensures r == QueryFilter(userId, kind, q, parseDate)
  {
    var where := Filter(userId, KindName(kind), None, None, Absent, Absent, Absent, None);
    if Supplied(q.startDate) || Supplied(q.endDate) {
      if Supplied(q.startDate) {
        var start := parseDate(q.startDate.value);
        if start.None? {
          return Err(Validation("Invalid startDate format"));
        }
        where := where.(dateFrom := start);
      }
      if Supplied(q.endDate) {
        var end := parseDate(q.endDate.value);
        if end.None? {
          return Err(Validation("Invalid endDate format"));
        }
        where := where.(dateTo := end);
      }
    }
    if Supplied(q.categoryId) {
      where := where.(categoryId := NumberArg(ParseInt(q.categoryId.value)));
    }
    if Supplied(q.minAmount) || Supplied(q.maxAmount) {
      if Supplied(q.minAmount) {
        where := where.(amountFrom := NumberArg(ParseFloat(q.minAmount.value)));
      }
      if Supplied(q.maxAmount) {
        where := where.(amountTo := NumberArg(ParseFloat(q.maxAmount.value)));
      }
    }
    if Supplied(q.search) {
      where := where.(search := q.search);
    }
    return Ok(where);
  }

  /**
   * What a list query asks for, read off the query itself: the caller's rows of the controller's type,
   * and for each supplied value, the condition it names.
   */
  predicate Wanted(t: Transaction, cats: seq<Category>, userId: int, kind: Kind, q: ListQuery,
                   parseDate: string -> Option<int>) {
    t.userId == userId && CategoryTypeOf(cats, t.categoryId) == Some(KindName(kind)) &&
    (Supplied(q.startDate) ==> parseDate(q.startDate.value).Some? && t.date >= parseDate(q.startDate.value).value) &&
    (Supplied(q.endDate) ==> parseDate(q.endDate.value).Some? && t.date <= parseDate(q.endDate.value).value) &&
    (Supplied(q.categoryId) ==> ParseInt(q.categoryId.value).Some? && t.categoryId == ParseInt(q.categoryId.value).value) &&
    (Supplied(q.minAmount) ==> ParseFloat(q.minAmount.value).Some? && t.amount >= ParseFloat(q.minAmount.value).value) &&
    (Supplied(q.maxAmount) ==> ParseFloat(q.maxAmount.value).Some? && t.amount <= ParseFloat(q.maxAmount.value).value) &&
    (Supplied(q.search) ==> ContainsInsensitive(t.description, q.search.value))
  }

  /** A runnable filter built from a query matches exactly the rows the query asks for. */
  lemma FilterMeaning(userId: int, kind: Kind, q: ListQuery, parseDate: string -> Option<int>,
                      cats: seq<Category>, t: Transaction)
    requires QueryFilter(userId, kind, q, parseDate).Ok?
    requires Runnable(QueryFilter(userId, kind, q, parseDate).value)
    ensures Matches(QueryFilter(userId, kind, q, parseDate).value, cats, t) <==> Wanted(t, cats, userId, kind, q, parseDate)
  {
  }

  /** `findMany({ where })` before ordering and paging: the matching rows, in table order. */
  function Select(ts: seq<Transaction>, f: Filter, cats: seq<Category>): (r: seq<Transaction>)
    ensures forall t {:trigger t in r} :: t in r <==> t in ts && Matches(f, cats, t)
  {
    if ts == [] then []
    else
      assert ts == [ts[0]] + ts[1..];
      (if Matches(f, cats, ts[0]) then [ts[0]] else []) + Select(ts[1..], f, cats)
  }

  /** The rows a query asks for, in table order: the reference the filter is measured against. */
  function WantedRows(ts: seq<Transaction>, cats: seq<Category>, userId: int, kind: Kind, q: ListQuery,
                      parseDate: string -> Option<int>): seq<Transaction>
  {
    if ts == [] then []
    else (if Wanted(ts[0], cats, userId, kind, q, parseDate) then [ts[0]] else []) +
         WantedRows(ts[1..], cats, userId, kind, q, parseDate)
  }

  lemma {:induction false} SelectIsWanted(ts: seq<Transaction>, cats: seq<Category>, userId: int, kind: Kind,
                                          q: ListQuery, parseDate: string -> Option<int>)
    requires QueryFilter(userId, kind, q, parseDate).Ok?
    requires Runnable(QueryFilter(userId, kind, q, parseDate).value)
    ensures Select(ts, QueryFilter(userId, kind, q, parseDate).value, cats) == WantedRows(ts, cats, userId, kind, q, parseDate)
  {
    if ts != [] {
      FilterMeaning(userId, kind, q, parseDate, cats, ts[0]);
      SelectIsWanted(ts[1..], cats, userId, kind, q, parseDate);
    }
  }

  function TransactionDate(t: Transaction): int {
    t.date
  }

  datatype Listing = Listing(rows: seq<Transaction>, pagination: Pagination)

  /**
   * A list query: the filtered rows, newest first, then the page window; `total` counts every
   * matching row, not only the page.
   */
  function ListTransactions(ts: seq<Transaction>, cats: seq<Category>, userId: int, kind: Kind, q: ListQuery,
                            parseDate: string -> Option<int>): (r: Outcome<Listing>)
    ensures QueryFilter(userId, kind, q, parseDate).Err? ==> r == Err(QueryFilter(userId, kind, q, parseDate).error)
    ensures r.Ok? ==> SortedDesc(r.value.rows, TransactionDate)
  {
    match QueryFilter(userId, kind, q, parseDate)
    case Err(e) => Err(e)
    case Ok(f) =>
      match TransactionWindow(q.page.GetOr("1"), q.limit.GetOr("50"))
      case Err(e) => Err(e)
      case Ok(w) =>
        if !Runnable(f) then Err(StorageRejected())
        else
          var found := SortDesc(Select(ts, f, cats), TransactionDate);
          SliceKeepsOrder(found, w.skip, w.take, TransactionDate);
          Ok(Listing(Slice(found, w.skip, w.take), PaginationOf(w, |found|)))
  }

  /** The list handler: build the `where`, then run the query on the stored tables. */
  method GetTransactions(db: Db, userId: int, kind: Kind, q: ListQuery, parseDate: string -> Option<int>)
    returns (r: Outcome<Listing>)
    ensures r == ListTransactions(db.transactions, db.categories, userId, kind, q, parseDate)
  {
    var where := BuildFilter(userId, kind, q, parseDate);
    if where.Err? {
      return Err(where.error);
    }
    var window := TransactionWindow(q.page.GetOr("1"), q.limit.GetOr("50"));
    if window.Err? {
      return Err(window.error);
    }
    if !Runnable(where.value) {
      return Err(StorageRejected());
    }
    var found := SortDesc(Select(db.transactions, where.value, db.categories), TransactionDate);
    SliceKeepsOrder(found, window.value.skip, window.value.take, TransactionDate);
    r := Ok(Listing(Slice(found, window.value.skip, window.value.take), PaginationOf(window.value, |found|)));
  }

  /**
   * Every listed row is a stored row of the caller, of the controller's category type, and meets every
   * supplied filter, whatever else the query string holds.
   */
  lemma ListedRowsAreWanted(ts: seq<Transaction>, cats: seq<Category>, userId: int, kind: Kind, q: ListQuery,
                            parseDate: string -> Option<int>)
    requires ListTransactions(ts, cats, userId, kind, q, parseDate).Ok?
    ensures var rows := ListTransactions(ts, cats, userId, kind, q, parseDate).value.rows;
            forall i :: 0 <= i < |rows| ==>
              rows[i] in ts && rows[i].userId == userId &&
              CategoryTypeOf(cats, rows[i].categoryId) == Some(KindName(kind)) &&
              Wanted(rows[i], cats, userId, kind, q, parseDate)
  {
    var f := QueryFilter(userId, kind, q, parseDate).value;
    var w := TransactionWindow(q.page.GetOr("1"), q.limit.GetOr("50")).value;
    var selected := Select(ts, f, cats);
    var found := SortDesc(selected, TransactionDate);
    var rows := Slice(found, w.skip, w.take);
    forall i | 0 <= i < |rows|
      ensures rows[i] in ts && Wanted(rows[i], cats, userId, kind, q, parseDate)
    {
      assert rows[i] == found[w.skip + i];
      SortKeepsRows(selected, TransactionDate, rows[i]);
      FilterMeaning(userId, kind, q, parseDate, cats, rows[i]);
    }
  }

  /**
   * A successful list is the page window, starting at `(page - 1) * limit`, over all the wanted rows ordered
   * newest first, and `total` is the number of wanted rows.
   */
  lemma ListIsWindowOfWanted(ts: seq<Transaction>, cats: seq<Category>, userId: int, kind: Kind, q: ListQuery,
                             parseDate: string -> Option<int>)
    requires ListTransactions(ts, cats, userId, kind, q, parseDate).Ok?
    ensures var l := ListTransactions(ts, cats, userId, kind, q, parseDate).value;
            var w := TransactionWindow(q.page.GetOr("1"), q.limit.GetOr("50")).value;
            var wanted := WantedRows(ts, cats, userId, kind, q, parseDate);
            l.rows == Slice(SortDesc(wanted, TransactionDate), w.skip, w.take) &&
            l.pagination == Pagination(w.page, w.limit, |wanted|, PageCount(|wanted|, w.divisor))
  {
    var f := QueryFilter(userId, kind, q, parseDate).value;
    var w := TransactionWindow(q.page.GetOr("1"), q.limit.GetOr("50")).value;
    SelectIsWanted(ts, cats, userId, kind, q, parseDate);
    var found := SortDesc(Select(ts, f, cats), TransactionDate);
    assert ListTransactions(ts, cats, userId, kind, q, parseDate).value ==
           Listing(Slice(found, w.skip, w.take), PaginationOf(w, |found|));
  }

  /** The `findFirst` of get, update and delete: the row with this id, owned by the caller, of this type. */
  predicate Owned(t: Transaction, cats: seq<Category>, id: int, userId: int, kind: Kind) {
    t.id == id && t.userId == userId && CategoryTypeOf(cats, t.categoryId) == Some(KindName(kind))
  }

  function FindOwned(ts: seq<Transaction>, cats: seq<Category>, id: int, userId: int, kind: Kind): (r: Option<Transaction>)
    ensures r.Some? ==> r.value in ts && Owned(r.value, cats, id, userId, kind)
    ensures r.None? <==> forall t :: t in ts ==> !Owned(t, cats, id, userId, kind)
  {
    if ts == [] then None
    else if Owned(ts[0], cats, id, userId, kind) then Some(ts[0])
    else
      assert ts == [ts[0]] + ts[1..];
      FindOwned(ts[1..], cats, id, userId, kind)
  }

  /** A row found by its id is the one row with that id, when ids are unique. */
  lemma FindOwnedUnique(ts: seq<Transaction>, cats: seq<Category>, t: Transaction, userId: int, kind: Kind)
    requires UniqueTransactionIds(ts) && t in ts && Owned(t, cats, t.id, userId, kind)
    ensures FindOwned(ts, cats, t.id, userId, kind) == Some(t)
  {
    SameIdSameRow(ts, FindOwned(ts, cats, t.id, userId, kind).value, t);
  }

  lemma SameIdSameRow(ts: seq<Transaction>, u: Transaction, t: Transaction)
    requires UniqueTransactionIds(ts) && u in ts && t in ts && u.id == t.id
    ensures u == t
  {
    var i :| 0 <= i < |ts| && ts[i] == u;
    var j :| 0 <= j < |ts| && ts[j] == t;
    assert i == j;
  }

  /** get: the caller's row of this type with this id, or the controller's not-found error. */
  function GetTransaction(ts: seq<Transaction>, cats: seq<Category>, id: int, userId: int, kind: Kind): (r: Outcome<Transaction>)
    ensures r.Ok? <==> exists t :: t in ts && Owned(t, cats, id, userId, kind)
    ensures r.Ok? ==> r.value in ts && r.value.id == id && r.value.userId == userId &&
                      CategoryTypeOf(cats, r.value.categoryId) == Some(KindName(kind))
    ensures r.Err? ==> r.error == NotFound(NotFoundMessage(kind))
  {
    match FindOwned(ts, cats, id, userId, kind)
    case None => Err(NotFound(NotFoundMessage(kind)))
    case Some(t) => Ok(t)
  }

  /** Another user's row, or one of the other type, is never returned, whatever its id. */
  lemma OthersRowsHidden(ts: seq<Transaction>, cats: seq<Category>, t: Transaction, userId: int, kind: Kind)
    requires UniqueTransactionIds(ts) && t in ts
    requires t.userId != userId || CategoryTypeOf(cats, t.categoryId) != Some(KindName(kind))
    ensures GetTransaction(ts, cats, t.id, userId, kind) == Err(NotFound(NotFoundMessage(kind)))
  {
    if FindOwned(ts, cats, t.id, userId, kind).Some? {
      SameIdSameRow(ts, FindOwned(ts, cats, t.id, userId, kind).value, t);
    }
  }
}
