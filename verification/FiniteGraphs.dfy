/** Paths in graphs: on finitely many nodes, paths are bounded exactly if there is no cycle. */
module FiniteGraphs {

  type Graph<!T(==)> = iset<(T, T)>

  /** No path from `x` has `k` edges. */
  ghost predicate Short<T(!new)>(k: nat, g: Graph<T>, x: T)
  {
    k > 0 && forall c | (x, c) in g :: Short(k - 1, g, c)
  }

  /** Following exactly `n` edges leads from `x` to `y`. */
  ghost predicate Reaches<T(!new)>(n: nat, g: Graph<T>, x: T, y: T)
    decreases n, 1
  {
    if n == 0 then x == y else exists c :: Via(n, g, x, c, y)
  }

  ghost predicate Via<T(!new)>(n: nat, g: Graph<T>, x: T, c: T, y: T)
    requires n > 0
    decreases n, 0
  {
    (x, c) in g && Reaches(n - 1, g, c, y)
  }

  ghost predicate Reachable<T(!new)>(g: Graph<T>, x: T, y: T)
  {
    exists n: nat :: Reaches(n, g, x, y)
  }

  ghost predicate OnCycle<T(!new)>(g: Graph<T>, y: T)
  {
    exists n: nat :: n > 0 && Reaches(n, g, y, y)
  }

  /** No cycle can be reached from `x`. */
  ghost predicate NoCycleFrom<T(!new)>(g: Graph<T>, x: T)
  {
    forall y | Reachable(g, x, y) :: !OnCycle(g, y)
  }

  // ---- composing paths --------------------------------------------------------------

  lemma {:induction false} OneMore<T(!new)>(n: nat, g: Graph<T>, x: T, y: T, z: T)
    requires Reaches(n, g, x, y) && (y, z) in g
    ensures Reaches(n + 1, g, x, z)
  {
    if n == 0 {
      assert Reaches(0, g, z, z);
      assert Via(1, g, x, z, z);
    } else {
      var c :| Via(n, g, x, c, y);
      OneMore(n - 1, g, c, y, z);
      assert Via(n + 1, g, x, c, z);
    }
  }

  lemma {:induction false} LastStep<T(!new)>(n: nat, g: Graph<T>, x: T, y: T) returns (c: T)
    requires n > 0 && Reaches(n, g, x, y)
    ensures Reaches(n - 1, g, x, c) && (c, y) in g
  {
    var z :| Via(n, g, x, z, y);
    if n == 1 {
      c := x;
    } else {
      c := LastStep(n - 1, g, z, y);
      assert Via(n - 1, g, x, z, c);
    }
  }

  lemma ReachableStep<T(!new)>(g: Graph<T>, x: T, y: T, z: T)
    requires Reachable(g, x, y) && (y, z) in g
    ensures Reachable(g, x, z)
  {
    var n: nat :| Reaches(n, g, x, y);
    OneMore(n, g, x, y, z);
  }

  lemma ReachableSelf<T(!new)>(g: Graph<T>, x: T)
    ensures Reachable(g, x, x)
  {
    assert Reaches(0, g, x, x);
  }

  lemma {:induction false} ShortMore<T(!new)>(j: nat, k: nat, g: Graph<T>, x: T)
    requires j <= k && Short(j, g, x)
    ensures Short(k, g, x)
    decreases j
  {
    forall c | (x, c) in g
      ensures Short(k - 1, g, c)
    {
      ShortMore(j - 1, k - 1, g, c);
    }
  }

  // ---- a bound excludes cycles ------------------------------------------------------

  lemma {:induction false} ShortAlong<T(!new)>(k: nat, n: nat, g: Graph<T>, x: T, y: T)
    requires Short(k, g, x) && Reaches(n, g, x, y)
    ensures n < k && Short(k - n, g, y)
    decreases n
  {
    if n > 0 {
      var c :| Via(n, g, x, c, y);
      ShortAlong(k - 1, n - 1, g, c, y);
    }
  }

  /** Going round a cycle once more makes paths of every length. */
  lemma {:induction false} ShortNotOnCycle<T(!new)>(k: nat, g: Graph<T>, y: T, n: nat)
    requires Short(k, g, y) && n > 0
    ensures !Reaches(n, g, y, y)
    decreases k
  {
    forall c | (y, c) in g
      ensures !Via(n, g, y, c, y)
    {
      ShortNotOnCycle(k - 1, g, c, n);
      if Reaches(n - 1, g, c, y) {
        OneMore(n - 1, g, c, y, c);
      }
    }
  }

  lemma ShortNoCycle<T(!new)>(k: nat, g: Graph<T>, x: T)
    requires Short(k, g, x)
    ensures NoCycleFrom(g, x)
  {
    forall y | Reachable(g, x, y)
      ensures !OnCycle(g, y)
    {
      var n: nat :| Reaches(n, g, x, y);
      ShortAlong(k, n, g, x, y);
      forall m: nat | m > 0
        ensures !Reaches(m, g, y, y)
      {
        ShortNotOnCycle(k - n, g, y, m);
      }
    }
  }

  // ---- without cycles, finitely many nodes are a bound ------------------------------

  /** The nodes met on the way to `x`, which all lead to it. */
  ghost predicate OnTheWay<T(!new)>(g: Graph<T>, seen: set<T>, x: T)
  {
    forall v | v in seen :: exists n: nat :: n > 0 && Reaches(n, g, v, x)
  }

  lemma StepOn<T(!new)>(g: Graph<T>, seen: set<T>, x: T, c: T)
    requires OnTheWay(g, seen, x) && (x, c) in g
    ensures OnTheWay(g, seen + {x}, c)
  {
    forall v | v in seen + {x}
      ensures exists n: nat :: n > 0 && Reaches(n, g, v, c)
    {
      if v in seen {
        var n: nat :| n > 0 && Reaches(n, g, v, x);
        OneMore(n, g, v, x, c);
      } else {
        assert Reaches(0, g, x, x);
        OneMore(0, g, x, x, c);
      }
    }
  }

  ghost predicate ClosedUnder<T(!new)>(g: Graph<T>, all: set<T>)
  {
    forall x, c | x in all && (x, c) in g :: c in all
  }

  lemma Unseen<T(!new)>(g: Graph<T>, all: set<T>, seen: set<T>, x: T)
    requires !OnCycle(g, x) && x in all && OnTheWay(g, seen, x)
    ensures |all - seen| > 0 && |all - (seen + {x})| == |all - seen| - 1
  {
    assert x !in seen;
    assert all - (seen + {x}) == (all - seen) - {x};
  }

  lemma NoCycleStep<T(!new)>(g: Graph<T>, x: T, c: T)
    requires NoCycleFrom(g, x) && (x, c) in g
    ensures NoCycleFrom(g, c)
  {
    forall y | Reachable(g, c, y)
      ensures !OnCycle(g, y)
    {
      var n: nat :| Reaches(n, g, c, y);
      assert Via(n + 1, g, x, c, y);
      assert Reaches(n + 1, g, x, y);
    }
  }

  lemma {:induction false} UnseenBound<T(!new)>(g: Graph<T>, all: set<T>, seen: set<T>, x: T)
    requires ClosedUnder(g, all) && NoCycleFrom(g, x) && x in all && OnTheWay(g, seen, x)
    ensures Short(|all - seen|, g, x)
    decreases |all - seen|, 1
  {
    ReachableSelf(g, x);
    Unseen(g, all, seen, x);
    forall c | (x, c) in g
      ensures Short(|all - seen| - 1, g, c)
    {
      ChildBound(g, all, seen, x, c);
    }
  }

  lemma {:induction false} ChildBound<T(!new)>(g: Graph<T>, all: set<T>, seen: set<T>, x: T, c: T)
    requires ClosedUnder(g, all) && NoCycleFrom(g, x) && x in all && OnTheWay(g, seen, x) && (x, c) in g
    ensures |all - seen| > 0 && Short(|all - seen| - 1, g, c)
    decreases |all - seen|, 0
  {
    ReachableSelf(g, x);
    Unseen(g, all, seen, x);
    StepOn(g, seen, x, c);
    NoCycleStep(g, x, c);
    UnseenBound(g, all, seen + {x}, c);
  }

  /** From a node without cycles in reach, every path is shorter than the number of nodes. */
  lemma NoCycleIsShort<T(!new)>(g: Graph<T>, all: set<T>, x: T)
    requires ClosedUnder(g, all) && x in all && NoCycleFrom(g, x)
    ensures Short(|all|, g, x)
  {
    UnseenBound(g, all, {}, x);
    assert all - {} == all;
  }
}
