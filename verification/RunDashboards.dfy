/** Saved plots of runs, kept in Postgres and in Grafana at once
    (control-plane/src/application/experiment_tracking_service.py:299-433 and :594-618, the tables of
    control-plane/src/infrastructure/database/repositories.py:140-222). */
module RunDashboards {
  import opened OrderedDict

  type RunId = nat
  type Id = nat
  type Uid = nat

  datatype PlotType = Line | Stat

  datatype Panel = Panel(title: string, plotType: PlotType, metrics: seq<string>)

  /** What Grafana shows under one identifier. */
  datatype Plot = Plot(run: RunId, panel: Panel)

  /** A row of `dashboard` joined with its row of `run_dashboard`. */
  datatype Row = Row(run: RunId, panel: Panel, order: nat, uid: Option<Uid>, createdAt: nat)

  type Table = map<Id, Row>
  type Grafana = map<Uid, Plot>

  const MAX_PLOTS := 4

  predicate Distinct<T(==)>(xs: seq<T>)
  {
    forall i, j | 0 <= i < j < |xs| :: xs[i] != xs[j]
  }

  /** `validate_plot_rules` and the field validators. */
  predicate WellFormed(p: Panel)
  {
    p.title != "" && p.metrics != [] && Distinct(p.metrics) && (p.plotType == Stat ==> |p.metrics| == 1)
  }

  // ---- what the two stores have in common -------------------------------------------

  predicate Shown(row: Row, g: Grafana)
  {
    row.uid.Some? && row.uid.value in g && g[row.uid.value] == Plot(row.run, row.panel)
  }

  ghost predicate HasUid(t: Table, u: Uid)
  {
    exists id :: id in t && t[id].uid == Some(u)
  }

  /** Grafana's map from identifiers to plots is exactly the table's. */
  ghost predicate Agree(t: Table, g: Grafana)
  {
    && (forall id | id in t :: Shown(t[id], g))
    && (forall u | u in g :: HasUid(t, u))
    && (forall i, j | i in t && j in t && t[i].uid == t[j].uid :: i == j)
  }

  /** The run's rows, in display order, are these. */
  ghost predicate Placed(t: Table, run: RunId, ids: seq<Id>)
  {
    && Distinct(ids)
    && (forall id :: id in ids <==> id in t && t[id].run == run)
    && (forall k | 0 <= k < |ids| :: t[ids[k]].order == k)
  }

  /** A run has at most four plots, with display orders 0, 1, 2 and so on. */
  ghost predicate TidyRun(t: Table, run: RunId)
  {
    exists ids :: |ids| <= MAX_PLOTS && Placed(t, run, ids)
  }

  ghost predicate Tidy(t: Table)
  {
    forall run :: TidyRun(t, run)
  }

  // ---- listing a run ----------------------------------------------------------------

  /** `ORDER BY display_order, created_at`. */
  predicate Before(a: Row, b: Row)
  {
    a.order < b.order || (a.order == b.order && a.createdAt <= b.createdAt)
  }

  ghost predicate Listing(t: Table, run: RunId, ids: seq<Id>)
  {
    && Distinct(ids)
    && (forall id :: id in ids <==> id in t && t[id].run == run)
    && (forall i, j | 0 <= i < j < |ids| :: Before(t[ids[i]], t[ids[j]]))
  }

  lemma {:induction false} FirstRow(t: Table, todo: set<Id>) returns (first: Id)
    requires todo != {} && forall id | id in todo :: id in t
    ensures first in todo && forall id | id in todo :: Before(t[first], t[id])
    decreases |todo|
  {
    var x :| x in todo;
    if todo == {x} {
      first := x;
    } else {
      var y := FirstRow(t, todo - {x});
      first := if Before(t[x], t[y]) then x else y;
      forall id | id in todo
        ensures Before(t[first], t[id])
      {
        assert id == x || id in todo - {x};
      }
    }
  }

  /** Rows with increasing orders can be listed in one way only. */
  lemma {:induction false} OneOrder(t: Table, a: seq<Id>, b: seq<Id>)
    requires Distinct(a) && (forall id :: id in a <==> id in b) && (forall id | id in a :: id in t)
    requires forall i, j | 0 <= i < j < |a| :: Before(t[a[i]], t[a[j]])
    requires forall i, j | 0 <= i < j < |b| :: t[b[i]].order < t[b[j]].order
    ensures a == b
  {
    BothEmpty(a, b);
    if a != [] {
      SameFirst(t, a, b);
      TailElements(a, b);
      OneOrder(t, a[1..], b[1..]);
    }
  }

  lemma SameFirst(t: Table, a: seq<Id>, b: seq<Id>)
    requires a != [] && Distinct(a) && (forall id :: id in a <==> id in b) && (forall id | id in a :: id in t)
    requires forall i, j | 0 <= i < j < |a| :: Before(t[a[i]], t[a[j]])
    requires forall i, j | 0 <= i < j < |b| :: t[b[i]].order < t[b[j]].order
    ensures b != [] && a[0] == b[0]
  {
    assert a[0] in b && b[0] in a;
    var i :| 0 <= i < |a| && a[i] == b[0];
    var j :| 0 <= j < |b| && b[j] == a[0];
    FirstBefore(t, a, i);
    FirstLess(t, b, j);
  }

  lemma BothEmpty(a: seq<Id>, b: seq<Id>)
    requires forall id :: id in a <==> id in b
    ensures a == [] <==> b == []
  {
    if a != [] {
      assert a[0] in b;
    }
    if b != [] {
      assert b[0] in a;
    }
  }

  lemma FirstBefore(t: Table, a: seq<Id>, i: nat)
    requires i < |a| && (forall id | id in a :: id in t)
    requires forall i, j | 0 <= i < j < |a| :: Before(t[a[i]], t[a[j]])
    ensures i == 0 || Before(t[a[0]], t[a[i]])
  {
  }

  lemma FirstLess(t: Table, b: seq<Id>, j: nat)
    requires j < |b| && (forall id | id in b :: id in t)
    requires forall i, j | 0 <= i < j < |b| :: t[b[i]].order < t[b[j]].order
    ensures j == 0 || t[b[0]].order < t[b[j]].order
  {
  }

  lemma TailElements(a: seq<Id>, b: seq<Id>)
    requires a != [] && b != [] && a[0] == b[0] && (forall id :: id in a <==> id in b)
    requires a[0] !in a[1..] && b[0] !in b[1..]
    ensures forall id :: id in a[1..] <==> id in b[1..]
  {
    forall id
      ensures id in a[1..] <==> id in b[1..]
    {
      InTail(a, id);
      InTail(b, id);
    }
  }

  lemma InTail(a: seq<Id>, id: Id)
    requires a != [] && a[0] !in a[1..]
    ensures id in a[1..] <==> id in a && id != a[0]
  {
    if id in a && id != a[0] {
      var i :| 0 <= i < |a| && a[i] == id;
      assert a[1..][i - 1] == id;
    }
  }

  // ---- moving one of them -----------------------------------------------------------

  /** `[item for item in items if item != x]`. */
  function AllBut(ids: seq<Id>, x: Id): seq<Id>
  {
    if ids == [] then [] else (if ids[0] == x then [] else [ids[0]]) + AllBut(ids[1..], x)
  }

  /** `items.insert(i, x)`. */
  function InsertAt(ids: seq<Id>, i: nat, x: Id): seq<Id>
  {
    if i <= |ids| then ids[..i] + [x] + ids[i..] else ids + [x]
  }

  /** `max(0, min(target, n - 1))`. */
  function Clamp(target: int, n: nat): nat
    requires n > 0
  {
    var low := if target < n - 1 then target else n - 1;
    if low < 0 then 0 else low
  }

  lemma {:induction false} AllButIs(ids: seq<Id>, k: nat)
    requires k < |ids| && Distinct(ids)
    ensures AllBut(ids, ids[k]) == ids[..k] + ids[k + 1..]
  {
    if k == 0 {
      AllButAbsent(ids[1..], ids[0]);
      assert ids[..0] + ids[1..] == ids[1..];
    } else {
      AllButIs(ids[1..], k - 1);
      assert ids[..k] + ids[k + 1..] == [ids[0]] + (ids[1..][..k - 1] + ids[1..][k..]);
    }
  }

  lemma {:induction false} AllButAbsent(ids: seq<Id>, x: Id)
    requires x !in ids
    ensures AllBut(ids, x) == ids
  {
    if ids != [] {
      AllButAbsent(ids[1..], x);
      assert ids == [ids[0]] + ids[1..];
    }
  }

  /** The reordered list: the moved item at the clamped target, the others around it. */
  function Reordered(ids: seq<Id>, x: Id, target: int): seq<Id>
    requires ids != []
  {
    InsertAt(AllBut(ids, x), Clamp(target, |ids|), x)
  }

  /** The moved item ends at the target cut to the list, and the others keep their relative order. */
  lemma ReorderedPlaces(ids: seq<Id>, x: Id, target: int)
    requires x in ids && Distinct(ids)
    ensures |Reordered(ids, x, target)| == |ids|
    ensures Reordered(ids, x, target)[Clamp(target, |ids|)] == x
    ensures AllBut(Reordered(ids, x, target), x) == AllBut(ids, x)
    ensures Distinct(Reordered(ids, x, target))
    ensures forall id :: id in Reordered(ids, x, target) <==> id in ids
  {
    var k: nat :| k < |ids| && ids[k] == x;
    AllButIs(ids, k);
    RestOf(ids, k);
    InsertPlaces(AllBut(ids, x), Clamp(target, |ids|), x);
  }

  lemma InsertPlaces(rest: seq<Id>, c: nat, x: Id)
    requires c <= |rest| && Distinct(rest) && x !in rest
    ensures var r := InsertAt(rest, c, x);
      |r| == |rest| + 1 && r[c] == x && AllBut(r, x) == rest && Distinct(r) && forall id :: id in r <==> id == x || id in rest
  {
    var r := InsertAt(rest, c, x);
    InsertDistinct(rest, c, x);
    AllButIs(r, c);
    assert r[..c] + r[c + 1..] == rest;
  }

  lemma RestOf(ids: seq<Id>, k: nat)
    requires k < |ids| && Distinct(ids)
    ensures var rest := ids[..k] + ids[k + 1..];
      Distinct(rest) && ids[k] !in rest && forall id :: id in ids <==> id == ids[k] || id in rest
  {
    var rest := ids[..k] + ids[k + 1..];
    forall i | 0 <= i < |rest|
      ensures rest[i] == ids[if i < k then i else i + 1]
    {
    }
    assert ids == ids[..k] + [ids[k]] + ids[k + 1..];
  }

  lemma InsertDistinct(rest: seq<Id>, c: nat, x: Id)
    requires c <= |rest| && Distinct(rest) && x !in rest
    ensures Distinct(InsertAt(rest, c, x))
    ensures forall id :: id in InsertAt(rest, c, x) <==> id == x || id in rest
  {
    var r := InsertAt(rest, c, x);
    forall i | 0 <= i < |r|
      ensures r[i] == if i < c then rest[i] else if i == c then x else rest[i - 1]
    {
    }
    assert rest == rest[..c] + rest[c..];
  }
}
