/** Stable sorting by a comparison, the specification of Python's `list.sort`. */
module Sorting {

  function Insert<T>(x: T, xs: seq<T>, le: (T, T) -> bool): seq<T>
  {
    if xs == [] || le(x, xs[0]) then [x] + xs
    else [xs[0]] + Insert(x, xs[1..], le)
  }

  function Sort<T>(xs: seq<T>, le: (T, T) -> bool): seq<T>
  {
    if xs == [] then [] else Insert(xs[0], Sort(xs[1..], le), le)
  }

  lemma {:induction false} InsertMultiset<T>(x: T, xs: seq<T>, le: (T, T) -> bool)
    ensures multiset(Insert(x, xs, le)) == multiset{x} + multiset(xs)
  {
    if xs != [] && !le(x, xs[0]) {
      InsertMultiset(x, xs[1..], le);
      assert xs == [xs[0]] + xs[1..];
    }
  }

  /** Sorting only reorders. */
  lemma {:induction false} SortMultiset<T>(xs: seq<T>, le: (T, T) -> bool)
    ensures multiset(Sort(xs, le)) == multiset(xs)
    ensures |Sort(xs, le)| == |xs|
  {
    if xs != [] {
      SortMultiset(xs[1..], le);
      InsertMultiset(xs[0], Sort(xs[1..], le), le);
      assert xs == [xs[0]] + xs[1..];
    }
    assert |multiset(Sort(xs, le))| == |multiset(xs)|;
  }

  ghost predicate Total<T(!new)>(le: (T, T) -> bool, xs: seq<T>)
  {
    && (forall x, y | x in xs && y in xs :: le(x, y) || le(y, x))
    && (forall x, y, z | x in xs && y in xs && z in xs && le(x, y) && le(y, z) :: le(x, z))
  }

  predicate Sorted<T>(xs: seq<T>, le: (T, T) -> bool)
  {
    forall i, j | 0 <= i < j < |xs| :: le(xs[i], xs[j])
  }

  lemma SameElements<T>(xs: seq<T>, ys: seq<T>)
    requires multiset(xs) == multiset(ys)
    ensures forall x :: x in xs <==> x in ys
  {
    forall x
      ensures x in xs <==> x in ys
    {
      assert x in xs <==> x in multiset(xs);
      assert x in ys <==> x in multiset(ys);
    }
  }

  lemma SortedCons<T>(x: T, xs: seq<T>, le: (T, T) -> bool)
    requires Sorted(xs, le) && forall j | 0 <= j < |xs| :: le(x, xs[j])
    ensures Sorted([x] + xs, le)
  {
  }

  lemma TotalBelow<T(!new)>(le: (T, T) -> bool, xs: seq<T>, ys: seq<T>)
    requires Total(le, ys) && forall x | x in xs :: x in ys
    ensures Total(le, xs)
  {
  }

  /** What comes before the head of a sorted list comes before all of it. */
  lemma BeforeAll<T(!new)>(x: T, xs: seq<T>, le: (T, T) -> bool)
    requires Total(le, [x] + xs) && Sorted(xs, le) && xs != [] && le(x, xs[0])
    ensures forall j | 0 <= j < |xs| :: le(x, xs[j])
  {
    forall j | 0 <= j < |xs|
      ensures le(x, xs[j])
    {
      assert x in [x] + xs && xs[0] in [x] + xs && xs[j] in [x] + xs;
      assert j > 0 ==> le(xs[0], xs[j]);
    }
  }

  lemma InsertBehind<T(!new)>(x: T, xs: seq<T>, le: (T, T) -> bool)
    requires Total(le, [x] + xs) && Sorted(xs, le) && xs != [] && !le(x, xs[0])
    ensures forall j | 0 <= j < |Insert(x, xs[1..], le)| :: le(xs[0], Insert(x, xs[1..], le)[j])
  {
    var rest := Insert(x, xs[1..], le);
    InsertMultiset(x, xs[1..], le);
    assert multiset(rest) == multiset([x] + xs[1..]);
    SameElements(rest, [x] + xs[1..]);
    assert x in [x] + xs && xs[0] in [x] + xs;
    forall j | 0 <= j < |rest|
      ensures le(xs[0], rest[j])
    {
      assert rest[j] in [x] + xs[1..];
    }
  }

  lemma {:induction false} InsertSorted<T(!new)>(x: T, xs: seq<T>, le: (T, T) -> bool)
    requires Total(le, [x] + xs) && Sorted(xs, le)
    ensures Sorted(Insert(x, xs, le), le)
  {
    if xs == [] {
    } else if le(x, xs[0]) {
      BeforeAll(x, xs, le);
      SortedCons(x, xs, le);
    } else {
      TotalBelow(le, [x] + xs[1..], [x] + xs);
      InsertSorted(x, xs[1..], le);
      InsertBehind(x, xs, le);
      SortedCons(xs[0], Insert(x, xs[1..], le), le);
    }
  }

  /** Sorting sorts, for an order that is total on the elements. */
  lemma {:induction false} SortSorted<T(!new)>(xs: seq<T>, le: (T, T) -> bool)
    requires Total(le, xs)
    ensures Sorted(Sort(xs, le), le)
  {
    if xs != [] {
      assert forall y | y in xs[1..] :: y in xs;
      SortSorted(xs[1..], le);
      SortMultiset(xs[1..], le);
      var rest := Sort(xs[1..], le);
      SameElements(rest, xs[1..]);
      assert forall y | y in [xs[0]] + rest :: y in xs;
      InsertSorted(xs[0], rest, le);
    }
  }

  function Filter<T>(xs: seq<T>, p: T -> bool): seq<T>
  {
    if xs == [] then [] else (if p(xs[0]) then [xs[0]] else []) + Filter(xs[1..], p)
  }

  lemma FilterCons<T>(x: T, xs: seq<T>, p: T -> bool)
    ensures Filter([x] + xs, p) == (if p(x) then [x] else []) + Filter(xs, p)
  {
    assert ([x] + xs)[1..] == xs;
  }

  /** What an insertion passes is not among the elements it must stay in front of. */
  lemma Passed<T>(x: T, xs: seq<T>, le: (T, T) -> bool, p: T -> bool)
    requires xs != [] && !le(x, xs[0]) && forall y | y in xs && p(x) && p(y) :: le(x, y)
    ensures p(x) ==> !p(xs[0])
    ensures forall y | y in xs[1..] && p(x) && p(y) :: le(x, y)
  {
    assert xs[0] in xs;
    forall y | y in xs[1..] && p(x) && p(y)
      ensures le(x, y)
    {
      assert y in xs;
    }
  }

  /** An insertion passes only elements that come before it. */
  lemma {:induction false} InsertStable<T>(x: T, xs: seq<T>, le: (T, T) -> bool, p: T -> bool)
    requires forall y | y in xs && p(x) && p(y) :: le(x, y)
    ensures Filter(Insert(x, xs, le), p) == (if p(x) then [x] else []) + Filter(xs, p)
    decreases |xs|
  {
    if xs == [] || le(x, xs[0]) {
      FilterCons(x, xs, p);
    } else {
      Passed(x, xs, le, p);
      InsertStable(x, xs[1..], le, p);
      FilterCons(xs[0], Insert(x, xs[1..], le), p);
      assert Filter(xs, p) == (if p(xs[0]) then [xs[0]] else []) + Filter(xs[1..], p);
      PassedFilter(if p(x) then [x] else [], if p(xs[0]) then [xs[0]] else [], Filter(xs[1..], p));
    }
  }

  lemma PassedFilter<T>(a: seq<T>, b: seq<T>, rest: seq<T>)
    requires a == [] || b == []
    ensures b + (a + rest) == a + (b + rest)
  {
  }

  /** Sorting is stable: elements that are equal in the order stay as they were among themselves. */
  lemma {:induction false} SortStable<T(!new)>(xs: seq<T>, le: (T, T) -> bool, p: T -> bool)
    requires forall x, y | p(x) && p(y) && x in xs && y in xs :: le(x, y)
    ensures Filter(Sort(xs, le), p) == Filter(xs, p)
  {
    if xs != [] {
      SortStable(xs[1..], le, p);
      SortMultiset(xs[1..], le);
      SameElements(Sort(xs[1..], le), xs[1..]);
      assert xs[0] in xs;
      InsertStable(xs[0], Sort(xs[1..], le), le, p);
    }
  }
}
