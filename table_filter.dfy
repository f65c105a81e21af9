/**
 * The three-state table filter (bountui/components/table/filter.rs) and
 * the order-preserving narrowing of a table's items by a predicate that
 * both table generations apply.
 */
module TableFilter {
  /** No filter; the search box is open with this text; a search is applied but the box is closed. */
  datatype Filter = Disabled | Input(text: string) | Value(text: string)

  /** The search box is open. */
  function IsInput(f: Filter): (r: bool)
    ensures r ==> IsActive(f)
    ensures r <==> exists t :: f == Input(t)
  {
    f.Input?
  }

  /** Some filter, open or applied. */
  function IsActive(f: Filter): (r: bool)
    ensures !r <==> f == Disabled
  {
    !f.Disabled?
  }

  /** A fresh table has no filter. */
  function DefaultFilter(): (f: Filter)
    ensures !IsActive(f) && !IsInput(f)
  {
    Disabled
  }

  /** `a` is `b` with some elements dropped, the rest in their original order. */
  predicate IsSubsequence<T(==)>(a: seq<T>, b: seq<T>)
    decreases |b|
  {
    if a == [] then true
    else if b == [] then false
    else if a[0] == b[0] && IsSubsequence(a[1..], b[1..]) then true
    else IsSubsequence(a, b[1..])
  }

  lemma {:induction false} SubsequenceReflexive<T>(a: seq<T>)
    ensures IsSubsequence(a, a)
    decreases |a|
  {
    if a != [] { SubsequenceReflexive(a[1..]); }
  }

  /** The items that match the search text, in their original order. */
  function Filtered<T(==,!new)>(items: seq<T>, matches: (T, string) -> bool, search: string): (r: seq<T>)
    ensures forall x :: multiset(r)[x] == if matches(x, search) then multiset(items)[x] else 0
    ensures IsSubsequence(r, items)
    decreases |items|
  {
    if items == [] then []
    else
      var rest := Filtered(items[1..], matches, search);
      assert items == [items[0]] + items[1..];
      if matches(items[0], search) then
        var r := [items[0]] + rest;
        assert r[1..] == rest;
        r
      else
        rest
  }

  /** Every shown item matches, and every matching item is shown. */
  lemma FilteredMembers<T(!new)>(items: seq<T>, matches: (T, string) -> bool, search: string, x: T)
    ensures x in Filtered(items, matches, search) <==> x in items && matches(x, search)
  {
    var r := Filtered(items, matches, search);
    assert x in r <==> multiset(r)[x] > 0;
    assert x in items <==> multiset(items)[x] > 0;
  }

  /** A predicate that holds of every item keeps the whole list. */
  lemma {:induction false} FilteredKeepsAll<T(!new)>(items: seq<T>, matches: (T, string) -> bool, search: string)
    requires forall i :: 0 <= i < |items| ==> matches(items[i], search)
    ensures Filtered(items, matches, search) == items
    decreases |items|
  {
    if items != [] { FilteredKeepsAll(items[1..], matches, search); }
  }
}
