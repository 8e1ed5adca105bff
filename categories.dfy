/**
 * The category controller: the caller's categories of one type, ordered by name. Both handlers only
 * read the category table.
 */
module Categories {
  import opened Strings
  import opened Database
  import opened TransactionQueries

  predicate SortedByName(cs: seq<Category>) {
    forall i, j :: 0 <= i < j < |cs| ==> LexLe(cs[i].name, cs[j].name)
  }

  /** Every name in `cs` sorts at or after `n`. */
  predicate NamesFrom(cs: seq<Category>, n: string) {
    forall i :: 0 <= i < |cs| ==> LexLe(n, cs[i].name)
  }

  /** `c` placed before the first category whose name sorts at or after its own. */
  function InsertByName(c: Category, cs: seq<Category>): (r: seq<Category>)
    ensures |r| == |cs| + 1
    ensures multiset(r) == multiset(cs) + multiset{c}
  {
    if cs == [] || LexLe(c.name, cs[0].name) then [c] + cs
    else
      assert cs == [cs[0]] + cs[1..];
      [cs[0]] + InsertByName(c, cs[1..])
  }

  lemma {:induction false} InsertByNameFrom(c: Category, cs: seq<Category>, n: string)
    requires NamesFrom(cs, n) && LexLe(n, c.name)
    ensures NamesFrom(InsertByName(c, cs), n)
  {
    if !(cs == [] || LexLe(c.name, cs[0].name)) {
      InsertByNameFrom(c, cs[1..], n);
    }
  }

  lemma {:induction false} InsertByNameSorted(c: Category, cs: seq<Category>)
    requires SortedByName(cs)
    ensures SortedByName(InsertByName(c, cs))
  {
    var r := InsertByName(c, cs);
    if cs == [] || LexLe(c.name, cs[0].name) {
      forall j | 1 <= j < |r| ensures LexLe(c.name, r[j].name) {
        if j > 1 {
          LexLeTransitive(c.name, cs[0].name, cs[j - 1].name);
        }
      }
    } else {
      LexLeTotal(c.name, cs[0].name);
      InsertByNameSorted(c, cs[1..]);
      InsertByNameFrom(c, cs[1..], cs[0].name);
    }
  }

  /** `orderBy: { name: 'asc' }`, keeping table order among equal names. */
  function SortByName(cs: seq<Category>): (r: seq<Category>)
    ensures |r| == |cs|
    ensures multiset(r) == multiset(cs)
    ensures SortedByName(r)
  {
    if cs == [] then []
    else
      assert cs == [cs[0]] + cs[1..];
      InsertByNameSorted(cs[0], SortByName(cs[1..]));
      InsertByName(cs[0], SortByName(cs[1..]))
  }

  /** The `where: { userId, type }` of the handlers, in table order. */
  function OwnOfType(cats: seq<Category>, userId: int, categoryType: string): (r: seq<Category>)
    ensures forall c {:trigger c in r} :: c in r <==> c in cats && c.userId == userId && c.categoryType == categoryType
  {
    if cats == [] then []
    else
      assert cats == [cats[0]] + cats[1..];
      (if cats[0].userId == userId && cats[0].categoryType == categoryType then [cats[0]] else []) +
      OwnOfType(cats[1..], userId, categoryType)
  }

  /**
   * `getExpenseCategories` and `getIncomeCategories`: exactly the caller's categories of that type, each
   * as often as it is stored, ordered by name.
   */
  function GetCategories(cats: seq<Category>, userId: int, kind: Kind): (r: seq<Category>)
    ensures SortedByName(r)
    ensures multiset(r) == multiset(OwnOfType(cats, userId, KindName(kind)))
    ensures forall c {:trigger c in r} :: c in r <==> c in cats && c.userId == userId && c.categoryType == KindName(kind)
  {
    var own := OwnOfType(cats, userId, KindName(kind));
    var r := SortByName(own);
    assert forall c :: c in r <==> c in multiset(r);
    assert forall c :: c in own <==> c in multiset(own);
    r
  }

  /** Adding a category of another user, or of the other type, does not change what a caller sees. */
  lemma {:induction false} OthersCategoriesIgnored(cats: seq<Category>, c: Category, userId: int, kind: Kind)
    requires c.userId != userId || c.categoryType != KindName(kind)
    ensures GetCategories(cats + [c], userId, kind) == GetCategories(cats, userId, kind)
  {
    OwnOfTypeAppend(cats, [c], userId, KindName(kind));
    assert OwnOfType([c], userId, KindName(kind)) == [];
    assert OwnOfType(cats + [c], userId, KindName(kind)) == OwnOfType(cats, userId, KindName(kind));
  }

  lemma {:induction false} OwnOfTypeAppend(a: seq<Category>, b: seq<Category>, userId: int, categoryType: string)
    ensures OwnOfType(a + b, userId, categoryType) == OwnOfType(a, userId, categoryType) + OwnOfType(b, userId, categoryType)
  {
    if a != [] {
      assert (a + b)[0] == a[0];
      assert (a + b)[1..] == a[1..] + b;
      OwnOfTypeAppend(a[1..], b, userId, categoryType);
    } else {
      assert a + b == b;
    }
  }

  lemma OwnOfTypeNone(cats: seq<Category>, userId: int, categoryType: string)
    requires forall c :: c in cats ==> c.userId != userId || c.categoryType != categoryType
    ensures OwnOfType(cats, userId, categoryType) == []
  {
  }

  lemma {:induction false} OwnOfTypeAll(cats: seq<Category>, userId: int, categoryType: string)
    requires forall i :: 0 <= i < |cats| ==> cats[i].userId == userId && cats[i].categoryType == categoryType
    ensures OwnOfType(cats, userId, categoryType) == cats
  {
    if cats != [] {
      OwnOfTypeAll(cats[1..], userId, categoryType);
      assert cats == [cats[0]] + cats[1..];
    }
  }
}
