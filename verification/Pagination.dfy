/** Filtering, sorting and slicing lists (control-plane/src/core/entities/pagination.py:27-75). */
module Pagination {
  import opened OrderedDict
  import opened Slugs
  import opened Sorting
  import opened Text

  /** A field of an item, as far as sorting tells values apart. */
  datatype Value =
    | Missing
    | Flag(b: bool)
    | Number(r: real)
    | Time(seconds: real)
    | Day(ordinal: int)
    | Words(s: string)

  /** The tuples of `_sortable_value`: `Last` is `(1, "")`, the others start with 0. */
  datatype SortKey = Num(v: real) | Str(s: string) | Last

  function SortableValue(v: Value): SortKey
  {
    match v
    case Missing => Last
    case Flag(b) => Num(if b then 1.0 else 0.0)
    case Number(r) => Num(r)
    case Time(seconds) => Num(seconds)
    case Day(n) => Num(n as real)
    case Words(s) => Str(Lower(s))
  }

  /** `<=` on those tuples, where Python can compare them. */
  predicate KeyLe(a: SortKey, b: SortKey)
  {
    match b
    case Last => true
    case Num(v) => a.Num? && a.v <= v
    case Str(s) => a.Str? && LexLe(a.s, s)
  }

  predicate IsSpace(c: char) { c in {' ', '\t', '\n', '\r'} || c as int == 11 || c as int == 12 }

  /** `s.strip()`. */
  function Trim(s: string): string
    decreases |s|
  {
    if s != "" && IsSpace(s[0]) then Trim(s[1..])
    else if s != "" && IsSpace(s[|s| - 1]) then Trim(s[..|s| - 1])
    else s
  }

  /** `needle in s`. */
  predicate Contains(s: string, needle: string)
  {
    needle <= s || (s != "" && Contains(s[1..], needle))
  }

  /** A list view: what to search in, and what to sort by. Search fields are the texts
      `str(field(item) or "")`. */
  datatype View<!T> = View(texts: T -> seq<string>, sortFields: map<string, T -> Value>)

  datatype Query = Query(search: Option<string>, sortBy: string, descending: bool)

  datatype Error = UnknownSortField | IncomparableValues

  datatype Page<T> = Page(items: seq<T>, total: nat) | Failure(error: Error)

  function Needle(q: Query): string
  {
    if q.search.Some? then Lower(Trim(q.search.value)) else ""
  }

  predicate Matches<T>(view: View<T>, q: Query, item: T)
  {
    Needle(q) == "" || exists i :: 0 <= i < |view.texts(item)| && Contains(Lower(view.texts(item)[i]), Needle(q))
  }

  /** `sort_fields.get(sort_by) or sort_fields["created_at"]`. */
  function SortField<T>(view: View<T>, q: Query): Option<T -> Value>
  {
    if q.sortBy in view.sortFields then Some(view.sortFields[q.sortBy])
    else if "created_at" in view.sortFields then Some(view.sortFields["created_at"])
    else None
  }

  function KeyOf<T>(field: T -> Value, item: T): SortKey { SortableValue(field(item)) }

  predicate InOrder<T>(field: T -> Value, descending: bool, a: T, b: T)
  {
    if descending then KeyLe(KeyOf(field, b), KeyOf(field, a)) else KeyLe(KeyOf(field, a), KeyOf(field, b))
  }

  /** The items that match, sorted; reversing keeps the sort stable. */
  function Arranged<T>(view: View<T>, q: Query, field: T -> Value, items: seq<T>): seq<T>
  {
    Sort(Matching(view, q, items), (a, b) => InOrder(field, q.descending, a, b))
  }

  function Matching<T>(view: View<T>, q: Query, items: seq<T>): seq<T>
  {
    Filter(items, item => Matches(view, q, item))
  }

  /** Comparing a number with a string raises, and any sort of a list with both has to. */
  predicate CanSort<T>(field: T -> Value, items: seq<T>)
  {
    forall i, j | 0 <= i < |items| && 0 <= j < |items| :: !(KeyOf(field, items[i]).Num? && KeyOf(field, items[j]).Str?)
  }

  /** `xs[offset:offset + limit]`. */
  function Slice<T>(xs: seq<T>, offset: nat, limit: nat): seq<T>
  {
    if offset >= |xs| then [] else if offset + limit >= |xs| then xs[offset..] else xs[offset..offset + limit]
  }

  /** `page_items`. */
  function PageItems<T>(view: View<T>, q: Query, items: seq<T>, limit: nat, offset: nat): Page<T>
  {
    var field := SortField(view, q);
    if field.None? then Failure(UnknownSortField)
    else if !CanSort(field.value, Matching(view, q, items)) then Failure(IncomparableValues)
    else
      var arranged := Arranged(view, q, field.value, items);
      Page.Page(Slice(arranged, offset, limit), |arranged|)
  }

  // ---- the order --------------------------------------------------------------------

  lemma KeyTotal(a: SortKey, b: SortKey)
    requires !(a.Num? && b.Str?) && !(a.Str? && b.Num?)
    ensures KeyLe(a, b) || KeyLe(b, a)
  {
    if a.Str? && b.Str? {
      LexTotal(a.s, b.s);
    }
  }

  lemma KeyTransitive(a: SortKey, b: SortKey, c: SortKey)
    requires KeyLe(a, b) && KeyLe(b, c)
    ensures KeyLe(a, c)
  {
    if a.Str? && b.Str? && c.Str? {
      LexTransitive(a.s, b.s, c.s);
    }
  }

  lemma OrderTotal<T(!new)>(field: T -> Value, descending: bool, items: seq<T>)
    requires CanSort(field, items)
    ensures Total((a, b) => InOrder(field, descending, a, b), items)
  {
    var le := (a, b) => InOrder(field, descending, a, b);
    forall x, y | x in items && y in items
      ensures le(x, y) || le(y, x)
    {
      KeyTotal(KeyOf(field, x), KeyOf(field, y));
    }
    forall x, y, z | x in items && y in items && z in items && le(x, y) && le(y, z)
      ensures le(x, z)
    {
      if descending {
        KeyTransitive(KeyOf(field, z), KeyOf(field, y), KeyOf(field, x));
      } else {
        KeyTransitive(KeyOf(field, x), KeyOf(field, y), KeyOf(field, z));
      }
    }
  }

  /** The arranged list has exactly the matching items, in order. */
  lemma ArrangedIsSorted<T(!new)>(view: View<T>, q: Query, field: T -> Value, items: seq<T>)
    requires CanSort(field, Matching(view, q, items))
    ensures multiset(Arranged(view, q, field, items)) == multiset(Matching(view, q, items))
    ensures forall i, j | 0 <= i < j < |Arranged(view, q, field, items)| ::
              InOrder(field, q.descending, Arranged(view, q, field, items)[i], Arranged(view, q, field, items)[j])
  {
    var le := (a, b) => InOrder(field, q.descending, a, b);
    OrderTotal(field, q.descending, Matching(view, q, items));
    SortMultiset(Matching(view, q, items), le);
    SortSorted(Matching(view, q, items), le);
  }

  /** Items with the same key stay in the order they came in, in both directions. */
  lemma ArrangedIsStable<T(!new)>(view: View<T>, q: Query, field: T -> Value, items: seq<T>, key: SortKey)
    ensures Filter(Arranged(view, q, field, items), item => KeyOf(field, item) == key)
         == Filter(Matching(view, q, items), item => KeyOf(field, item) == key)
  {
    var le := (a, b) => InOrder(field, q.descending, a, b);
    var p := item => KeyOf(field, item) == key;
    forall x, y | p(x) && p(y)
      ensures le(x, y)
    {
      KeyTotal(key, key);
    }
    SortStable(Matching(view, q, items), le, p);
  }

  /** An item is listed exactly if it is among the items and matches. */
  lemma {:induction false} MatchingIs<T>(view: View<T>, q: Query, items: seq<T>, item: T)
    ensures item in Matching(view, q, items) <==> item in items && Matches(view, q, item)
  {
    if items != [] {
      MatchingIs(view, q, items[1..], item);
      assert items == [items[0]] + items[1..];
    }
  }

  // ---- pages ------------------------------------------------------------------------

  /** The items of the pages at this offset, one limit further, two limits further, and so on. */
  function PagesFrom<T>(view: View<T>, q: Query, items: seq<T>, limit: nat, offset: nat, end: nat): seq<T>
    requires limit >= 1
    decreases end - offset
  {
    if offset >= end then []
    else
      match PageItems(view, q, items, limit, offset)
      case Failure(_) => []
      case Page(here, _) => here + PagesFrom(view, q, items, limit, offset + limit, end)
  }

  lemma SliceThenRest<T>(xs: seq<T>, offset: nat, limit: nat)
    requires limit >= 1 && offset < |xs|
    ensures Slice(xs, offset, limit) + (if offset + limit <= |xs| then xs[offset + limit..] else []) == xs[offset..]
  {
  }

  lemma {:induction false} PagesTileFrom<T>(view: View<T>, q: Query, items: seq<T>, limit: nat, offset: nat, arranged: seq<T>)
    requires limit >= 1
    requires forall o: nat :: PageItems(view, q, items, limit, o) == Page.Page(Slice(arranged, o, limit), |arranged|)
    ensures PagesFrom(view, q, items, limit, offset, |arranged|) == if offset <= |arranged| then arranged[offset..] else []
    decreases |arranged| - offset
  {
    if offset < |arranged| {
      PagesTileFrom(view, q, items, limit, offset + limit, arranged);
      SliceThenRest(arranged, offset, limit);
      assert PageItems(view, q, items, limit, offset) == Page.Page(Slice(arranged, offset, limit), |arranged|);
    }
  }

  /** The pages at offsets 0, limit, 2 * limit and so on, one after the other, are the whole sorted
      list of matching items, and every page reports its length as the total. */
  lemma PagesTile<T(!new)>(view: View<T>, q: Query, items: seq<T>, limit: nat, field: T -> Value)
    requires limit >= 1 && SortField(view, q) == Some(field) && CanSort(field, Matching(view, q, items))
    ensures var all := PagesFrom(view, q, items, limit, 0, |Matching(view, q, items)|);
      && all == Arranged(view, q, field, items)
      && multiset(all) == multiset(Matching(view, q, items))
      && (forall i, j | 0 <= i < j < |all| :: InOrder(field, q.descending, all[i], all[j]))
      && (forall offset: nat ::
            PageItems(view, q, items, limit, offset) == Page.Page(Slice(all, offset, limit), |Matching(view, q, items)|))
  {
    var arranged := Arranged(view, q, field, items);
    ArrangedIsSorted(view, q, field, items);
    SortMultiset(Matching(view, q, items), (a, b) => InOrder(field, q.descending, a, b));
    PagesTileFrom(view, q, items, limit, 0, arranged);
    assert arranged[0..] == arranged;
  }
}
