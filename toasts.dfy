/**
 * `useToast`: the store of notifications on screen. Adding appends one toast, removing filters out every
 * toast with an id, clearing empties the list. A toast's id is the clock reading when it was added, passed
 * in here.
 */
module Toasts {
  import opened Wrappers

  datatype Toast = Toast(id: int, message: string, kind: string)

  /** The `type = 'error'` default of `addToast`. */
  function KindOr(kind: Option<string>): string {
    if kind.Some? then kind.value else "error"
  }

  /** `filter(toast => toast.id !== id)`. */
  function Without(toasts: seq<Toast>, id: int): seq<Toast> {
    if toasts == [] then []
    else (if toasts[0].id != id then [toasts[0]] else []) + Without(toasts[1..], id)
  }

  predicate HasId(toasts: seq<Toast>, id: int) {
    exists i :: 0 <= i < |toasts| && toasts[i].id == id
  }

  /** A toast is kept exactly when it was there and has another id. */
  lemma {:induction false} WithoutMembers(toasts: seq<Toast>, id: int, t: Toast)
    ensures t in Without(toasts, id) <==> t in toasts && t.id != id
  {
    if toasts != [] {
      WithoutMembers(toasts[1..], id, t);
      assert toasts == [toasts[0]] + toasts[1..];
    }
  }

  /** Filtering a concatenation filters each part, so the kept toasts stay in order. */
  lemma {:induction false} WithoutAppend(a: seq<Toast>, b: seq<Toast>, id: int)
    ensures Without(a + b, id) == Without(a, id) + Without(b, id)
  {
    if a == [] {
      assert a + b == b;
    } else {
      assert (a + b)[0] == a[0];
      assert (a + b)[1..] == a[1..] + b;
      WithoutAppend(a[1..], b, id);
    }
  }

  /** Removing an id that is not there changes nothing. */
  lemma {:induction false} WithoutAbsent(toasts: seq<Toast>, id: int)
    requires !HasId(toasts, id)
    ensures Without(toasts, id) == toasts
  {
    if toasts != [] {
      assert !HasId(toasts[1..], id) by {
        forall i | 0 <= i < |toasts[1..]| ensures toasts[1..][i].id != id {
          assert toasts[1..][i] == toasts[i + 1];
        }
      }
      WithoutAbsent(toasts[1..], id);
      assert toasts == [toasts[0]] + toasts[1..];
    }
  }

  /** No toast with the id is left, so removing twice is removing once. */
  lemma WithoutIdempotent(toasts: seq<Toast>, id: int)
    ensures !HasId(Without(toasts, id), id)
    ensures Without(Without(toasts, id), id) == Without(toasts, id)
  {
    var kept := Without(toasts, id);
    forall i | 0 <= i < |kept| ensures kept[i].id != id {
      WithoutMembers(toasts, id, kept[i]);
    }
    WithoutAbsent(kept, id);
  }

  /** Two toasts added within the same clock reading share an id, so removing one removes both. */
  lemma SameReadingRemovedTogether(toasts: seq<Toast>, id: int, first: Toast, second: Toast)
    requires first.id == id && second.id == id
    ensures Without(toasts + [first] + [second], id) == Without(toasts, id)
  {
    WithoutAppend(toasts + [first], [second], id);
    WithoutAppend(toasts, [first], id);
    assert Without([first], id) == [] && Without([second], id) == [];
  }

  class ToastStore {
    var toasts: seq<Toast>

    constructor()
      ensures toasts == []
    {
      toasts := [];
    }

    /** `addToast`: exactly one toast at the end; the earlier ones are unchanged. */
    method AddToast(now: int, message: string, kind: Option<string>)
      modifies this
      ensures toasts == old(toasts) + [Toast(now, message, KindOr(kind))]
    {
      toasts := toasts + [Toast(now, message, KindOr(kind))];
    }

    /** `removeToast`: every toast with the id goes, the others stay in order. */
    method RemoveToast(id: int)
      modifies this
      ensures toasts == Without(old(toasts), id)
    {
      toasts := Without(toasts, id);
    }

    /** `clearToasts`. */
    method ClearToasts()
      modifies this
      ensures toasts == []
    {
      toasts := [];
    }
  }

  /** Adding a toast with a fresh id and then removing that id restores the list. */
  lemma AddThenRemoveRestores(toasts: seq<Toast>, t: Toast)
    requires !HasId(toasts, t.id)
    ensures Without(toasts + [t], t.id) == toasts
  {
    WithoutAppend(toasts, [t], t.id);
    WithoutAbsent(toasts, t.id);
  }
}
