/**
 * The eight expense categories every new account starts with, and the loop that creates them for a
 * user, one `category.create` per entry, in list order.
 */
module DefaultCategories {
  import opened Database
  import opened TransactionQueries
  import opened Categories

  /** An entry of the default list: everything of a category but its id, owner and default flag. */
  datatype Template = Template(name: string, color: string, icon: string, categoryType: string)

  const Defaults: seq<Template> := [
    Template("Food", "#22c55e", "\U{1F354}", "expense"),
    Template("Transport", "#3b82f6", "\U{1F697}", "expense"),
    Template("Housing", "#8b5cf6", "\U{1F3E0}", "expense"),
    Template("Entertainment", "#f59e0b", "\U{1F3AC}", "expense"),
    Template("Education", "#06b6d4", "\U{1F4DA}", "expense"),
    Template("Health", "#ef4444", "\U{1F48A}", "expense"),
    Template("Clothing & Footwear", "#f97316", "\U{1F457}", "expense"),
    Template("Others", "#9ca3af", "\U{1F6CD}\U{FE0F}", "expense")
  ]

  /** `{ ...category, userId, isDefault: true }`, with the id the table assigns. */
  function FromTemplate(t: Template, id: int, userId: int): Category {
    Category(id, userId, t.name, t.color, t.icon, t.categoryType, true)
  }

  /** The rows the loop creates for `userId` when the next category id is `firstId`. */
  function DefaultRows(userId: int, firstId: int): (r: seq<Category>)
    ensures |r| == |Defaults|
    ensures forall k :: 0 <= k < |r| ==> r[k] == FromTemplate(Defaults[k], firstId + k, userId)
  {
    seq(|Defaults|, k requires 0 <= k < |Defaults| => FromTemplate(Defaults[k], firstId + k, userId))
  }

  /**
   * `createDefaultCategories`: the default rows are appended in list order with consecutive ids; no
   * other row and no other table changes.
   */
  method CreateDefaultCategories(db: Db, userId: int)
    requires db.Valid()
    modifies db
    ensures db.Valid()
    ensures db.categories == old(db.categories) + DefaultRows(userId, old(db.nextCategoryId))
    ensures db.nextCategoryId == old(db.nextCategoryId) + |Defaults|
    ensures db.users == old(db.users) && db.transactions == old(db.transactions)
    ensures db.nextUserId == old(db.nextUserId) && db.nextTransactionId == old(db.nextTransactionId)
  {
    ghost var rows := DefaultRows(userId, db.nextCategoryId);
    for k := 0 to |Defaults|
      invariant db.Valid()
      invariant db.categories == old(db.categories) + rows[..k]
      invariant db.nextCategoryId == old(db.nextCategoryId) + k
      invariant db.users == old(db.users) && db.transactions == old(db.transactions)
      invariant db.nextUserId == old(db.nextUserId) && db.nextTransactionId == old(db.nextTransactionId)
    {
      db.InsertCategory(FromTemplate(Defaults[k], db.nextCategoryId, userId));
      assert rows[..k + 1] == rows[..k] + [rows[k]];
    }
    assert rows[..|Defaults|] == rows;
  }

  /** Every default row is an expense category of the user, flagged as a default, with the listed name. */
  lemma DefaultRowsShape(userId: int, firstId: int)
    ensures var r := DefaultRows(userId, firstId);
            |r| == 8 &&
            forall k :: 0 <= k < |r| ==>
              r[k].userId == userId && r[k].isDefault && r[k].categoryType == "expense" &&
              r[k].id == firstId + k && r[k].name == Defaults[k].name
  {
    var r := DefaultRows(userId, firstId);
    forall k | 0 <= k < |r| ensures r[k].categoryType == "expense" {
      assert Defaults[k].categoryType == "expense";
    }
  }

  /**
   * A user without categories who gets the defaults lists exactly those eight as expense categories,
   * ordered by name, and no income category.
   */
  lemma NewUserSeesDefaults(cats: seq<Category>, userId: int, firstId: int)
    requires forall c :: c in cats ==> c.userId != userId
    ensures multiset(GetCategories(cats + DefaultRows(userId, firstId), userId, Expense)) ==
            multiset(DefaultRows(userId, firstId))
    ensures SortedByName(GetCategories(cats + DefaultRows(userId, firstId), userId, Expense))
    ensures GetCategories(cats + DefaultRows(userId, firstId), userId, Income) == []
  {
    var rows := DefaultRows(userId, firstId);
    DefaultRowsShape(userId, firstId);
    OwnOfTypeAppend(cats, rows, userId, "expense");
    OwnOfTypeAppend(cats, rows, userId, "income");
    OwnOfTypeNone(cats, userId, "expense");
    OwnOfTypeNone(cats, userId, "income");
    OwnOfTypeAll(rows, userId, "expense");
    OwnOfTypeNone(rows, userId, "income");
    assert [] + rows == rows;
    assert OwnOfType(cats + rows, userId, "income") == [];
  }
}
