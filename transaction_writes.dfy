/**
 * The write side of the expense and income controllers: create, update and delete of one transaction
 * row of the caller. Validation runs before any write, and a failed request leaves the tables as they were.
 */
module TransactionWrites {
  import opened Wrappers
  import opened Strings
  import opened JsNumbers
  import opened Values
  import opened Errors
  import opened Database
  import opened Validation
  import opened TransactionQueries

  /** The request body fields the controllers read. */
  datatype Body = Body(amount: Raw, description: Raw, date: Raw, categoryId: Raw, notes: Raw, receiptUrl: Raw)

  /** The largest magnitude of a JavaScript time value, in milliseconds. */
  const MaxTime: real := 8640000000000000.0

  /**
   * `new Date(v)` as a timestamp, `None` for an Invalid Date: `null` is the epoch, text goes through the
   * date parser, and a number is a time value (truncated, and invalid beyond the time range).
   */
  function DateValue(v: Raw, parseDate: string -> Option<int>): (r: Option<int>)
    ensures v.Null? ==> r == Some(0)
    ensures v.Str? ==> r == parseDate(v.s)
    ensures v.Undefined? ==> r.None?
  {
    match v
    case Undefined => None
    case Null => Some(0)
    case Str(s) => parseDate(s)
    case Num(t) =>
      match ParseFloat(t)
      case None => None
      case Some(x) => if -MaxTime <= x <= MaxTime then Some(Trunc(x)) else None
  }

  /** `...(date && { date: new Date(date) })`: a truthy date is parsed, otherwise the column default `now`. */
  function CreatedDate(date: Raw, parseDate: string -> Option<int>, now: int): (r: Arg<int>)
    ensures !Truthy(date) ==> r == Given(now)
    ensures Truthy(date) && r.Given? ==> DateValue(date, parseDate) == Some(r.value)
    ensures !r.Absent?
  {
    if Truthy(date) then NumberArg(DateValue(date, parseDate)) else Given(now)
  }

  /** `receiptUrl || null` as a storage argument: a number is refused by the text column. */
  function ReceiptArg(v: Raw): (r: Arg<Option<string>>)
    ensures !Truthy(v) ==> r == Given(None)
    ensures v.Str? && v.s != "" ==> r == Given(Some(v.s))
  {
    if !Truthy(v) then Given(None)
    else if v.Str? then Given(Some(v.s))
    else Refused
  }

  /** The stored value of validated notes: `undefined` and `null` both store `null`. */
  function NotesValue(v: Validated<string>): Option<string> {
    if v.Value? then Some(v.value) else None
  }

  /**
   * create: amount, description, notes, then the category, each required except notes; the first failure
   * is the error. The date is taken from the body only when it is truthy, otherwise `now`; an income
   * never stores a receipt URL.
   */
  function NewTransaction(kind: Kind, id: int, userId: int, body: Body, cats: seq<Category>,
                          parseDate: string -> Option<int>, now: int): (r: Outcome<Transaction>)
    ensures r.Ok? ==> r.value.id == id && r.value.userId == userId
    ensures r.Ok? ==> exists c :: c in cats && CategoryMatches(c, r.value.categoryId, userId, Some(KindName(kind)))
  {
    var amount := ValidateAmount(body.amount, true);
    var description := ValidateDescription(body.description, true);
    var notes := ValidateNotes(body.notes);
    if amount.Err? then Err(amount.error)
    else if description.Err? then Err(description.error)
    else if notes.Err? then Err(notes.error)
    else
      var category := ValidateCategory(body.categoryId, userId, true, Some(KindName(kind)), cats);
      if category.Err? then Err(category.error)
      else
        NewRow(kind, id, userId, body, parseDate, now, amount.value.value, description.value.value,
               category.value.value, notes.value)
  }

  /**
   * The `data` of `prisma.transaction.create` from the validated values: the date and receipt URL are
   * taken from the body as create does, and the storage layer refuses an Invalid Date or a numeric URL.
   */
  function NewRow(kind: Kind, id: int, userId: int, body: Body, parseDate: string -> Option<int>, now: int,
                  amount: real, description: string, categoryId: int, notes: Validated<string>): (r: Outcome<Transaction>)
    ensures r.Ok? ==> r.value.id == id && r.value.userId == userId && r.value.amount == amount &&
                      r.value.description == description && r.value.categoryId == categoryId &&
                      r.value.notes == NotesValue(notes)
    ensures r.Ok? ==> CreatedDate(body.date, parseDate, now) == Given(r.value.date)
    ensures r.Ok? && kind == Income ==> r.value.receiptUrl == None
    ensures r.Ok? && kind == Expense ==>
              r.value.receiptUrl == if body.receiptUrl.Str? && body.receiptUrl.s != "" then Some(body.receiptUrl.s) else None
    ensures r.Err? ==> r.error == StorageRejected()
  {
    var date := CreatedDate(body.date, parseDate, now);
    var receipt := if kind == Expense then ReceiptArg(body.receiptUrl) else Given(None);
    match (date, receipt)
    case (Given(d), Given(url)) => Ok(Transaction(id, userId, amount, description, d, categoryId, NotesValue(notes), url))
    case _ => Err(StorageRejected())
  }

  /**
   * The first failing validation, in the order amount, description, notes, category, is the error of
   * create; the category of the transaction's kind is looked up only once the other three pass.
   */
  lemma CreateErrorOrder(kind: Kind, id: int, userId: int, body: Body, cats: seq<Category>,
                         parseDate: string -> Option<int>, now: int)
    ensures var r := NewTransaction(kind, id, userId, body, cats, parseDate, now);
            var amount := ValidateAmount(body.amount, true);
            var description := ValidateDescription(body.description, true);
            var notes := ValidateNotes(body.notes);
            var category := ValidateCategory(body.categoryId, userId, true, Some(KindName(kind)), cats);
            (amount.Err? ==> r == Err(amount.error)) &&
            (amount.Ok? && description.Err? ==> r == Err(description.error)) &&
            (amount.Ok? && description.Ok? && notes.Err? ==> r == Err(notes.error)) &&
            (amount.Ok? && description.Ok? && notes.Ok? && category.Err? ==> r == Err(category.error))
  {
  }

  /**
   * Create refuses a category of another kind, or of another user, with the message naming the kind,
   * once the amount, description and notes pass.
   */
  lemma CreateRefusesForeignCategory(kind: Kind, id: int, userId: int, body: Body, cats: seq<Category>,
                                     parseDate: string -> Option<int>, now: int)
    requires ValidateAmount(body.amount, true).Ok? && ValidateDescription(body.description, true).Ok?
    requires ValidateNotes(body.notes).Ok?
    requires Truthy(body.categoryId) && CategoryIdOf(body.categoryId).Some?
    requires forall c :: c in cats ==> !CategoryMatches(c, CategoryIdOf(body.categoryId).value, userId, Some(KindName(kind)))
    ensures NewTransaction(kind, id, userId, body, cats, parseDate, now) ==
            Err(Errors.Validation(CategoryNotFoundMessage(Some(KindName(kind)))))
  {
    CreateErrorOrder(kind, id, userId, body, cats, parseDate, now);
    NoMatchRefused(body.categoryId, userId, KindName(kind), cats);
  }

  /** A truthy category id that matches no category of the caller and the type is refused naming the type. */
  lemma NoMatchRefused(categoryId: Raw, userId: int, categoryType: string, cats: seq<Category>)
    requires Truthy(categoryId) && CategoryIdOf(categoryId).Some?
    requires forall c :: c in cats ==> !CategoryMatches(c, CategoryIdOf(categoryId).value, userId, Some(categoryType))
    ensures ValidateCategory(categoryId, userId, true, Some(categoryType), cats) ==
            Err(Errors.Validation(CategoryNotFoundMessage(Some(categoryType))))
  {
    assert FindCategory(cats, CategoryIdOf(categoryId).value, userId, Some(categoryType)).None?;
  }

  /** A created row holds the parsed amount and the trimmed description. */
  lemma CreatedValues(kind: Kind, id: int, userId: int, body: Body, cats: seq<Category>,
                      parseDate: string -> Option<int>, now: int)
    requires NewTransaction(kind, id, userId, body, cats, parseDate, now).Ok?
    ensures var t := NewTransaction(kind, id, userId, body, cats, parseDate, now).value;
            AmountTextAccepted(Text(body.amount)) && t.amount == ParseFloat(Text(body.amount)).value &&
            body.description.Str? && t.description == Trim(body.description.s)
  {
    var amount := ValidateAmount(body.amount, true);
    var description := ValidateDescription(body.description, true);
    var notes := ValidateNotes(body.notes);
    CreateErrorOrder(kind, id, userId, body, cats, parseDate, now);
    assert amount.Ok? && description.Ok? && notes.Ok?;
    assert amount.value.Value? && description.value.Value?;
    var category := ValidateCategory(body.categoryId, userId, true, Some(KindName(kind)), cats);
    assert category.Ok?;
    assert NewTransaction(kind, id, userId, body, cats, parseDate, now) ==
           NewRow(kind, id, userId, body, parseDate, now, amount.value.value, description.value.value,
                  category.value.value, notes.value);
  }

  /** A created row holds the date create picks and, for an expense only, the supplied receipt URL. */
  lemma CreatedDateAndReceipt(kind: Kind, id: int, userId: int, body: Body, cats: seq<Category>,
                              parseDate: string -> Option<int>, now: int)
    requires NewTransaction(kind, id, userId, body, cats, parseDate, now).Ok?
    ensures var t := NewTransaction(kind, id, userId, body, cats, parseDate, now).value;
            CreatedDate(body.date, parseDate, now) == Given(t.date) &&
            (kind == Income ==> t.receiptUrl == None) &&
            (kind == Expense ==> t.receiptUrl == if body.receiptUrl.Str? && body.receiptUrl.s != "" then Some(body.receiptUrl.s) else None)
  {
  }

  /** A category matching with a type also matches without one, so the row's category is owned. */
  lemma MatchedCategoryOwned(cats: seq<Category>, id: int, userId: int, categoryType: string)
    requires exists c :: c in cats && CategoryMatches(c, id, userId, Some(categoryType))
    ensures FindCategory(cats, id, userId, None).Some?
  {
    var c :| c in cats && CategoryMatches(c, id, userId, Some(categoryType));
    assert CategoryMatches(c, id, userId, None);
  }

  lemma {:induction false} FindOwnedSkips(ts: seq<Transaction>, more: seq<Transaction>, cats: seq<Category>,
                                          id: int, userId: int, kind: Kind)
    requires forall t :: t in ts ==> t.id != id
    ensures FindOwned(ts + more, cats, id, userId, kind) == FindOwned(more, cats, id, userId, kind)
  {
    if ts != [] {
      var s := ts + more;
      assert s[0] == ts[0] && ts[0] in ts;
      assert s[1..] == ts[1..] + more;
      assert FindOwned(s, cats, id, userId, kind) == FindOwned(s[1..], cats, id, userId, kind);
      assert forall t :: t in ts[1..] ==> t in ts;
      FindOwnedSkips(ts[1..], more, cats, id, userId, kind);
    } else {
      assert ts + more == more;
    }
  }

  /** A row appended with a fresh id and a category of the right type is what get returns for that id. */
  lemma CreatedIsFound(ts: seq<Transaction>, cats: seq<Category>, t: Transaction, userId: int, kind: Kind)
    requires UniqueCategoryIds(cats) && t.userId == userId
    requires forall u :: u in ts ==> u.id != t.id
    requires exists c :: c in cats && CategoryMatches(c, t.categoryId, userId, Some(KindName(kind)))
    ensures GetTransaction(ts + [t], cats, t.id, userId, kind) == Ok(t)
  {
    var c :| c in cats && CategoryMatches(c, t.categoryId, userId, Some(KindName(kind)));
    CategoryTypeOfUnique(cats, c);
    FindOwnedSkips(ts, [t], cats, t.id, userId, kind);
    assert [t][1..] == [];
  }

  /** create, on the tables: the new row takes the next id; nothing is written when validation fails. */
  method CreateTransaction(db: Db, kind: Kind, userId: int, body: Body, parseDate: string -> Option<int>, now: int)
    returns (r: Outcome<Transaction>)
    requires db.Valid()
    modifies db
    ensures db.Valid()
    ensures r == NewTransaction(kind, old(db.nextTransactionId), userId, body, old(db.categories), parseDate, now)
    ensures r.Ok? ==> db.transactions == old(db.transactions) + [r.value] &&
                      db.nextTransactionId == old(db.nextTransactionId) + 1
    ensures r.Err? ==> db.transactions == old(db.transactions) && db.nextTransactionId == old(db.nextTransactionId)
    ensures r.Ok? ==> GetTransaction(db.transactions, db.categories, r.value.id, userId, kind) == Ok(r.value)
    ensures db.users == old(db.users) && db.categories == old(db.categories)
    ensures db.nextUserId == old(db.nextUserId) && db.nextCategoryId == old(db.nextCategoryId)
  {
    r := NewTransaction(kind, db.nextTransactionId, userId, body, db.categories, parseDate, now);
    if r.Err? {
      return;
    }
    var t := r.value;
    MatchedCategoryOwned(db.categories, t.categoryId, userId, KindName(kind));
    NextIdIsFresh(db.transactions, db.nextTransactionId);
    CreatedIsFound(db.transactions, db.categories, t, userId, kind);
    db.InsertTransaction(t);
  }

  /**
   * The `updateData` of update: one entry per field whose validated value is not `undefined`; notes may
   * be set to `null`, and the receipt URL (expense only) is written whenever the body has the key.
   */
  datatype Patch = Patch(
    amount: Option<real>,
    description: Option<string>,
    date: Arg<int>,
    categoryId: Option<int>,
    notes: Option<Option<string>>,
    receiptUrl: Arg<Option<string>>)

  function ValidatedOption<T>(v: Validated<T>): Option<T> {
    if v.Value? then Some(v.value) else None
  }

  /** `amount !== undefined ? validateAmount(amount, false) : undefined`. */
  function OptionalAmount(v: Raw): (r: Outcome<Validated<real>>)
    ensures r.Ok? ==> !r.value.Cleared? && (r.value.Unset? <==> IsNullish(v))
  {
    if v.Undefined? then Ok(Unset) else ValidateAmount(v, false)
  }

  /** `description !== undefined ? validateDescription(description, false) : undefined`. */
  function OptionalDescription(v: Raw): (r: Outcome<Validated<string>>)
    ensures r.Ok? ==> !r.value.Cleared? && (r.value.Unset? <==> IsNullish(v))
  {
    if v.Undefined? then Ok(Unset) else ValidateDescription(v, false)
  }

  /** `notes !== undefined ? validateNotes(notes) : undefined`. */
  function OptionalNotes(v: Raw): (r: Outcome<Validated<string>>)
    ensures r.Ok? ==> (r.value.Unset? <==> IsNullish(v))
  {
    if v.Undefined? then Ok(Unset) else ValidateNotes(v)
  }

  /** `categoryId !== undefined ? await validateCategory(categoryId, userId, false, type) : undefined`. */
  function OptionalCategory(v: Raw, userId: int, kind: Kind, cats: seq<Category>): (r: Outcome<Validated<int>>)
    ensures r.Ok? ==> !r.value.Cleared? && (r.value.Unset? <==> IsNullish(v))
    ensures r.Ok? && r.value.Value? ==>
              exists c :: c in cats && CategoryMatches(c, r.value.value, userId, Some(KindName(kind)))
  {
    if v.Undefined? then Ok(Unset) else ValidateCategory(v, userId, false, Some(KindName(kind)), cats)
  }

  /** The `updateData` object built from the validated values and the raw date and receipt URL. */
  function PatchOf(kind: Kind, body: Body, parseDate: string -> Option<int>, amount: Validated<real>,
                   description: Validated<string>, notes: Validated<string>, category: Validated<int>): (p: Patch)
    ensures p.amount.None? <==> amount.Unset?
    ensures p.description.None? <==> description.Unset?
    ensures p.categoryId.None? <==> category.Unset?
    ensures p.notes.None? <==> notes.Unset?
    ensures p.notes == Some(None) <==> notes.Cleared?
    ensures p.date.Absent? <==> body.date.Undefined?
    ensures p.receiptUrl.Absent? <==> kind == Income || body.receiptUrl.Undefined?
    requires !amount.Cleared? && !description.Cleared? && !category.Cleared?
  {
    Patch(
      ValidatedOption(amount),
      ValidatedOption(description),
      if body.date.Undefined? then Absent else NumberArg(DateValue(body.date, parseDate)),
      ValidatedOption(category),
      if notes.Unset? then None else Some(NotesValue(notes)),
      if kind == Income || body.receiptUrl.Undefined? then Absent else ReceiptArg(body.receiptUrl))
  }

  /** The optional validations of update, in the order amount, description, notes, category. */
  function UpdateData(kind: Kind, userId: int, body: Body, cats: seq<Category>, parseDate: string -> Option<int>): Outcome<Patch> {
    var amount := OptionalAmount(body.amount);
    var description := OptionalDescription(body.description);
    var notes := OptionalNotes(body.notes);
    if amount.Err? then Err(amount.error)
    else if description.Err? then Err(description.error)
    else if notes.Err? then Err(notes.error)
    else
      var category := OptionalCategory(body.categoryId, userId, kind, cats);
      if category.Err? then Err(category.error)
      else Ok(PatchOf(kind, body, parseDate, amount.value, description.value, notes.value, category.value))
  }

  /** A field is in the patch exactly when the body holds a value for it; an undefined date or receipt URL is left out. */
  lemma UpdateDataKeys(kind: Kind, userId: int, body: Body, cats: seq<Category>, parseDate: string -> Option<int>)
    requires UpdateData(kind, userId, body, cats, parseDate).Ok?
    ensures var p := UpdateData(kind, userId, body, cats, parseDate).value;
            (p.amount.None? <==> IsNullish(body.amount)) &&
            (p.description.None? <==> IsNullish(body.description)) &&
            (p.categoryId.None? <==> IsNullish(body.categoryId)) &&
            (p.notes.None? <==> IsNullish(body.notes)) &&
            (p.date.Absent? <==> body.date.Undefined?) &&
            (p.receiptUrl.Absent? <==> kind == Income || body.receiptUrl.Undefined?)
  {
  }

  /** A category in the patch is one of the caller's categories of the right type. */
  lemma UpdateDataCategory(kind: Kind, userId: int, body: Body, cats: seq<Category>, parseDate: string -> Option<int>)
    requires UpdateData(kind, userId, body, cats, parseDate).Ok?
    requires UpdateData(kind, userId, body, cats, parseDate).value.categoryId.Some?
    ensures exists c :: c in cats && CategoryMatches(c, UpdateData(kind, userId, body, cats, parseDate).value.categoryId.value,
                                                     userId, Some(KindName(kind)))
  {
  }

  /** update's validations, then `updateData` filled key by key. */
  method BuildUpdateData(kind: Kind, userId: int, body: Body, cats: seq<Category>, parseDate: string -> Option<int>)
    returns (r: Outcome<Patch>)
    ensures r == UpdateData(kind, userId, body, cats, parseDate)
  {
    var amount := OptionalAmount(body.amount);
    if amount.Err? {
      return Err(amount.error);
    }
    var description := OptionalDescription(body.description);
    if description.Err? {
      return Err(description.error);
    }
    var notes := OptionalNotes(body.notes);
    if notes.Err? {
      return Err(notes.error);
    }
    var category := OptionalCategory(body.categoryId, userId, kind, cats);
    if category.Err? {
      return Err(category.error);
    }
    var data := FillUpdateData(kind, body, parseDate, amount.value, description.value, notes.value, category.value);
    return Ok(data);
  }

  /** `const updateData = {}` and one `if (... !== undefined) updateData.<key> = ...` per field. */
  method FillUpdateData(kind: Kind, body: Body, parseDate: string -> Option<int>, amount: Validated<real>,
                        description: Validated<string>, notes: Validated<string>, category: Validated<int>)
    returns (data: Patch)
    requires !amount.Cleared? && !description.Cleared? && !category.Cleared?
    ensures data == PatchOf(kind, body, parseDate, amount, description, notes, category)
  {
    data := Patch(None, None, Absent, None, None, Absent);
    if !amount.Unset? {
      data := data.(amount := Some(amount.value));
    }
    if !description.Unset? {
      data := data.(description := Some(description.value));
    }
    if !body.date.Undefined? {
      data := data.(date := NumberArg(DateValue(body.date, parseDate)));
    }
    if !category.Unset? {
      data := data.(categoryId := Some(category.value));
    }
    if !notes.Unset? {
      data := data.(notes := Some(NotesValue(notes)));
    }
    if kind == Expense && !body.receiptUrl.Undefined? {
      data := data.(receiptUrl := ReceiptArg(body.receiptUrl));
    }
  }

  /** A patch the storage layer accepts: no Invalid Date and no number for the receipt URL. */
  predicate Writable(p: Patch) {
    !p.date.Refused? && !p.receiptUrl.Refused?
  }

  /** The row after the update: each field in the patch replaced, every other field kept. */
  function ApplyPatch(t: Transaction, p: Patch): (r: Transaction)
    requires Writable(p)
    ensures r.id == t.id && r.userId == t.userId
  {
    t.(amount := if p.amount.Some? then p.amount.value else t.amount,
       description := if p.description.Some? then p.description.value else t.description,
       date := if p.date.Given? then p.date.value else t.date,
       categoryId := if p.categoryId.Some? then p.categoryId.value else t.categoryId,
       notes := if p.notes.Some? then p.notes.value else t.notes,
       receiptUrl := if p.receiptUrl.Given? then p.receiptUrl.value else t.receiptUrl)
  }

  /** An empty patch changes nothing. */
  lemma EmptyPatchKeepsRow(t: Transaction)
    ensures ApplyPatch(t, Patch(None, None, Absent, None, None, Absent)) == t
  {
  }

  /**
   * update: the ownership check comes first, so a row that is not the caller's, or not of this type, is not
   * found whatever the body holds; then the optional validations; then the patch is applied.
   */
  function UpdatedTransaction(ts: seq<Transaction>, cats: seq<Category>, kind: Kind, id: int, userId: int,
                              body: Body, parseDate: string -> Option<int>): (r: Outcome<Transaction>)
    ensures FindOwned(ts, cats, id, userId, kind).None? ==> r == Err(NotFound(NotFoundMessage(kind)))
    ensures r.Ok? ==> FindOwned(ts, cats, id, userId, kind).Some? &&
                      r.value.id == id && r.value.userId == userId
  {
    match FindOwned(ts, cats, id, userId, kind)
    case None => Err(NotFound(NotFoundMessage(kind)))
    case Some(t) =>
      match UpdateData(kind, userId, body, cats, parseDate)
      case Err(e) => Err(e)
      case Ok(p) => if Writable(p) then Ok(ApplyPatch(t, p)) else Err(StorageRejected())
  }

  /** A field the body leaves out or sets to `null` keeps its stored value; so do the date and receipt URL when left out. */
  lemma UpdateKeepsUnsuppliedFields(ts: seq<Transaction>, cats: seq<Category>, kind: Kind, id: int, userId: int,
                                    body: Body, parseDate: string -> Option<int>)
    requires UpdatedTransaction(ts, cats, kind, id, userId, body, parseDate).Ok?
    ensures var r := UpdatedTransaction(ts, cats, kind, id, userId, body, parseDate).value;
            var prior := FindOwned(ts, cats, id, userId, kind).value;
            (IsNullish(body.amount) ==> r.amount == prior.amount) &&
            (IsNullish(body.description) ==> r.description == prior.description) &&
            (IsNullish(body.categoryId) ==> r.categoryId == prior.categoryId) &&
            (IsNullish(body.notes) ==> r.notes == prior.notes) &&
            (body.date.Undefined? ==> r.date == prior.date) &&
            (kind == Income || body.receiptUrl.Undefined? ==> r.receiptUrl == prior.receiptUrl)
  {
    UpdateDataKeys(kind, userId, body, cats, parseDate);
  }

  /** Empty notes, an empty receipt URL and a `null` date are written as `null`, `null` and the epoch. */
  lemma UpdateClearsFields(ts: seq<Transaction>, cats: seq<Category>, kind: Kind, id: int, userId: int,
                           body: Body, parseDate: string -> Option<int>)
    requires UpdatedTransaction(ts, cats, kind, id, userId, body, parseDate).Ok?
    ensures var r := UpdatedTransaction(ts, cats, kind, id, userId, body, parseDate).value;
            (body.notes == Str("") ==> r.notes == None) &&
            (kind == Expense && body.receiptUrl == Str("") ==> r.receiptUrl == None) &&
            (body.date.Null? ==> r.date == 0)
  {
    var p := UpdateData(kind, userId, body, cats, parseDate).value;
    if body.notes == Str("") {
      assert OptionalNotes(body.notes) == Ok(Cleared);
      assert p.notes == Some(None);
    }
    if kind == Expense && body.receiptUrl == Str("") {
      assert p.receiptUrl == Given(None);
    }
    if body.date.Null? {
      assert p.date == Given(0);
    }
  }

  /** An update whose body supplies no fields returns the row unchanged. */
  lemma EmptyUpdateChangesNothing(ts: seq<Transaction>, cats: seq<Category>, kind: Kind, id: int, userId: int,
                                  parseDate: string -> Option<int>)
    requires FindOwned(ts, cats, id, userId, kind).Some?
    ensures UpdatedTransaction(ts, cats, kind, id, userId, Body(Undefined, Undefined, Undefined, Undefined, Undefined, Undefined), parseDate)
            == Ok(FindOwned(ts, cats, id, userId, kind).value)
  {
    var body := Body(Undefined, Undefined, Undefined, Undefined, Undefined, Undefined);
    assert UpdateData(kind, userId, body, cats, parseDate) == Ok(Patch(None, None, Absent, None, None, Absent));
    EmptyPatchKeepsRow(FindOwned(ts, cats, id, userId, kind).value);
  }

  /** Replacing a row by itself leaves the table as it was: an empty update writes nothing new. */
  lemma ReplaceBySelf(ts: seq<Transaction>, t: Transaction)
    requires UniqueTransactionIds(ts) && t in ts
    ensures ReplaceById(ts, t) == ts
  {
    var r := ReplaceById(ts, t);
    forall i | 0 <= i < |ts| ensures r[i] == ts[i] {
      if ts[i].id == t.id {
        SameIdSameRow(ts, ts[i], t);
      }
    }
  }

  /** update, on the tables: only the matched row changes, and only in the patched fields. */
  method UpdateTransaction(db: Db, kind: Kind, id: int, userId: int, body: Body, parseDate: string -> Option<int>)
    returns (r: Outcome<Transaction>)
    requires db.Valid()
    modifies db
    ensures db.Valid()
    ensures r == UpdatedTransaction(old(db.transactions), old(db.categories), kind, id, userId, body, parseDate)
    ensures r.Ok? ==> db.transactions == ReplaceById(old(db.transactions), r.value)
    ensures r.Err? ==> db.transactions == old(db.transactions)
    ensures db.users == old(db.users) && db.categories == old(db.categories)
    ensures db.nextUserId == old(db.nextUserId) && db.nextCategoryId == old(db.nextCategoryId) &&
            db.nextTransactionId == old(db.nextTransactionId)
  {
    var existing := FindOwned(db.transactions, db.categories, id, userId, kind);
    if existing.None? {
      return Err(NotFound(NotFoundMessage(kind)));
    }
    var data := BuildUpdateData(kind, userId, body, db.categories, parseDate);
    if data.Err? {
      return Err(data.error);
    }
    if !Writable(data.value) {
      return Err(StorageRejected());
    }
    var t := ApplyPatch(existing.value, data.value);
    if data.value.categoryId.Some? {
      UpdateDataCategory(kind, userId, body, db.categories, parseDate);
      MatchedCategoryOwned(db.categories, t.categoryId, userId, KindName(kind));
    } else {
      OwnedRowCategory(db.transactions, db.categories, existing.value);
    }
    db.ReplaceTransaction(t);
    r := Ok(t);
  }

  /** delete, on the tables: after the ownership check, the matched row is removed and nothing else changes. */
  method DeleteTransaction(db: Db, kind: Kind, id: int, userId: int) returns (r: Outcome<Transaction>)
    requires db.Valid()
    modifies db
    ensures db.Valid()
    ensures r == GetTransaction(old(db.transactions), old(db.categories), id, userId, kind)
    ensures r.Ok? ==> exists k :: 0 <= k < |old(db.transactions)| && old(db.transactions)[k] == r.value &&
                                  db.transactions == old(db.transactions)[..k] + old(db.transactions)[k + 1..]
    ensures r.Err? ==> db.transactions == old(db.transactions)
    ensures db.users == old(db.users) && db.categories == old(db.categories)
    ensures db.nextUserId == old(db.nextUserId) && db.nextCategoryId == old(db.nextCategoryId) &&
            db.nextTransactionId == old(db.nextTransactionId)
  {
    r := GetTransaction(db.transactions, db.categories, id, userId, kind);
    if r.Err? {
      return;
    }
    ghost var k :| 0 <= k < |db.transactions| && db.transactions[k] == r.value;
    DeleteRemovesOne(db.transactions, k);
    db.RemoveTransaction(id);
  }

}
