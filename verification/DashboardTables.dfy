/** What adding, editing, reordering and removing a plot does to the two stores. */
module DashboardTables {
  import opened OrderedDict
  import opened RunDashboards

  /** Only display orders of the run's rows differ. */
  ghost predicate OrdersOnly(t: Table, u: Table, run: RunId)
  {
    && t.Keys == u.Keys
    && (forall id | id in t :: u[id] == t[id].(order := u[id].order))
    && (forall id | id in t && t[id].run != run :: u[id] == t[id])
  }

  ghost predicate Numbered(t: Table, ids: seq<Id>)
  {
    (forall k | 0 <= k < |ids| :: ids[k] in t) && forall k | 0 <= k < |ids| :: t[ids[k]].order == k
  }

  /** A tidy run has one list of rows. */
  lemma PlacedOnce(t: Table, run: RunId, a: seq<Id>, b: seq<Id>)
    requires Placed(t, run, a) && Placed(t, run, b)
    ensures a == b
  {
    OneOrder(t, a, b);
  }

  lemma ListingIsPlaced(t: Table, run: RunId, ids: seq<Id>, listed: seq<Id>)
    requires Placed(t, run, ids) && Listing(t, run, listed)
    ensures listed == ids
  {
    OneOrder(t, listed, ids);
  }

  /** Other runs are placed as before when none of their rows changed. */
  lemma OthersPlaced(t: Table, u: Table, run: RunId)
    requires forall id | id in t && t[id].run != run :: id in u && u[id] == t[id]
    requires forall id | id in u && u[id].run != run :: id in t && t[id] == u[id]
    ensures forall other, ids | other != run && Placed(t, other, ids) :: Placed(u, other, ids)
  {
    forall other, ids | other != run && Placed(t, other, ids)
      ensures Placed(u, other, ids)
    {
      forall id
        ensures id in ids <==> id in u && u[id].run == other
      {
      }
      forall k | 0 <= k < |ids|
        ensures u[ids[k]].order == k
      {
        assert ids[k] in ids;
      }
    }
  }

  lemma TidyAfter(t: Table, u: Table, run: RunId, ids: seq<Id>)
    requires Tidy(t) && |ids| <= MAX_PLOTS && Placed(u, run, ids)
    requires forall other, rows | other != run && Placed(t, other, rows) :: Placed(u, other, rows)
    ensures Tidy(u)
  {
    forall other
      ensures TidyRun(u, other)
    {
      if other != run {
        assert TidyRun(t, other);
      }
    }
  }

  // ---- adding -----------------------------------------------------------------------

  lemma AddPlaces(t: Table, id: Id, row: Row, ids: seq<Id>)
    requires id !in t && Placed(t, row.run, ids) && row.order == |ids|
    ensures Placed(t[id := row], row.run, ids + [id])
  {
    var u, all := t[id := row], ids + [id];
    forall x
      ensures x in all <==> x in u && u[x].run == row.run
    {
      assert x in all <==> x in ids || x == id;
    }
    forall k | 0 <= k < |ids|
      ensures u[all[k]].order == k
    {
      assert ids[k] in ids;
    }
  }

  lemma AddTidy(t: Table, id: Id, row: Row, ids: seq<Id>)
    requires Tidy(t) && id !in t && Placed(t, row.run, ids) && row.order == |ids| < MAX_PLOTS
    ensures Tidy(t[id := row])
  {
    AddPlaces(t, id, row, ids);
    OthersPlaced(t, t[id := row], row.run);
    TidyAfter(t, t[id := row], row.run, ids + [id]);
  }

  lemma AddAgrees(t: Table, g: Grafana, id: Id, row: Row, uid: Uid)
    requires Agree(t, g) && id !in t && uid !in g && row.uid == Some(uid)
    ensures Agree(t[id := row], g[uid := Plot(row.run, row.panel)])
  {
    var u, h := t[id := row], g[uid := Plot(row.run, row.panel)];
    forall x | x in h
      ensures HasUid(u, x)
    {
      if x == uid {
        assert u[id].uid == Some(x);
      } else {
        assert HasUid(t, x);
        var i :| i in t && t[i].uid == Some(x);
        assert u[i].uid == Some(x);
      }
    }
    assert forall i | i in t :: Shown(t[i], g);
  }

  // ---- editing ----------------------------------------------------------------------

  lemma EditPlaces(t: Table, id: Id, panel: Panel, run: RunId, ids: seq<Id>)
    requires id in t && Placed(t, run, ids)
    ensures Placed(t[id := t[id].(panel := panel)], run, ids)
  {
    var u := t[id := t[id].(panel := panel)];
    forall k | 0 <= k < |ids|
      ensures u[ids[k]].order == k
    {
      assert ids[k] in ids;
    }
  }

  lemma EditTidy(t: Table, id: Id, panel: Panel)
    requires Tidy(t) && id in t
    ensures Tidy(t[id := t[id].(panel := panel)])
  {
    var u := t[id := t[id].(panel := panel)];
    forall run
      ensures TidyRun(u, run)
    {
      assert TidyRun(t, run);
      var ids :| |ids| <= MAX_PLOTS && Placed(t, run, ids);
      EditPlaces(t, id, panel, run, ids);
    }
  }

  lemma EditAgrees(t: Table, g: Grafana, id: Id, panel: Panel)
    requires Agree(t, g) && id in t && t[id].uid.Some?
    ensures Agree(t[id := t[id].(panel := panel)], g[t[id].uid.value := Plot(t[id].run, panel)])
  {
    var uid := t[id].uid.value;
    var u, h := t[id := t[id].(panel := panel)], g[uid := Plot(t[id].run, panel)];
    forall i | i in u
      ensures Shown(u[i], h)
    {
      assert Shown(t[i], g);
    }
    forall x | x in h
      ensures HasUid(u, x)
    {
      assert HasUid(t, x);
      var i :| i in t && t[i].uid == Some(x);
      assert u[i].uid == Some(x);
    }
  }

  // ---- reordering -------------------------------------------------------------------

  lemma OrdersKeepAgreement(t: Table, u: Table, run: RunId, g: Grafana)
    requires Agree(t, g) && OrdersOnly(t, u, run)
    ensures Agree(u, g)
  {
    forall i | i in u
      ensures Shown(u[i], g)
    {
      assert Shown(t[i], g);
    }
    forall x | x in g
      ensures HasUid(u, x)
    {
      assert HasUid(t, x);
      var i :| i in t && t[i].uid == Some(x);
      assert u[i].uid == Some(x);
    }
  }

  lemma NumberedPlaces(t: Table, u: Table, run: RunId, ids: seq<Id>)
    requires OrdersOnly(t, u, run) && Distinct(ids) && (forall id :: id in ids <==> id in t && t[id].run == run)
    requires Numbered(u, ids)
    ensures Placed(u, run, ids)
  {
  }

  lemma NumberedTidy(t: Table, u: Table, run: RunId, ids: seq<Id>)
    requires Tidy(t) && OrdersOnly(t, u, run) && |ids| <= MAX_PLOTS && Placed(u, run, ids)
    ensures Tidy(u)
  {
    OthersPlaced(t, u, run);
    TidyAfter(t, u, run, ids);
  }

  // ---- removing ---------------------------------------------------------------------

  lemma RemoveAgrees(t: Table, g: Grafana, id: Id)
    requires Agree(t, g) && id in t && t[id].uid.Some?
    ensures Agree(t - {id}, g - {t[id].uid.value})
  {
    var uid := t[id].uid.value;
    var u, h := t - {id}, g - {uid};
    forall i | i in u
      ensures Shown(u[i], h)
    {
      assert Shown(t[i], g);
    }
    forall x | x in h
      ensures HasUid(u, x)
    {
      assert HasUid(t, x);
      var i :| i in t && t[i].uid == Some(x);
      assert u[i].uid == Some(x);
    }
  }

  /** The rows that stay, in their old order. */
  lemma RemainingRows(t: Table, run: RunId, ids: seq<Id>, id: Id)
    requires Placed(t, run, ids) && id in ids
    ensures var rest := AllBut(ids, id);
      |rest| == |ids| - 1 && Distinct(rest) && (forall x :: x in rest <==> x in t - {id} && (t - {id})[x].run == run)
    ensures var rest := AllBut(ids, id);
      forall i, j | 0 <= i < j < |rest| :: rest[i] in t && rest[j] in t && t[rest[i]].order < t[rest[j]].order
  {
    var k: nat :| k < |ids| && ids[k] == id;
    AllButIs(ids, k);
    RestOf(ids, k);
    var rest := AllBut(ids, id);
    forall i | 0 <= i < |rest|
      ensures rest[i] == ids[if i < k then i else i + 1] && rest[i] in ids
    {
    }
  }

  /** So the query after the deletion lists exactly those. */
  lemma ListedRest(t: Table, run: RunId, ids: seq<Id>, id: Id, listed: seq<Id>)
    requires Placed(t, run, ids) && id in ids && Listing(t - {id}, run, listed)
    ensures listed == AllBut(ids, id)
  {
    RemainingRows(t, run, ids, id);
    OneOrder(t - {id}, listed, AllBut(ids, id));
  }

  lemma RemoveTidy(t: Table, u: Table, id: Id, ids: seq<Id>)
    requires Tidy(t) && id in t && Placed(t, t[id].run, ids) && id in ids
    requires OrdersOnly(t - {id}, u, t[id].run) && Numbered(u, AllBut(ids, id))
    ensures Placed(u, t[id].run, AllBut(ids, id)) && Tidy(u)
  {
    var run, rest := t[id].run, AllBut(ids, id);
    RemainingRows(t, run, ids, id);
    NumberedPlaces(t - {id}, u, run, rest);
    OthersPlaced(t, u, run);
    assert TidyRun(t, run);
    var all :| |all| <= MAX_PLOTS && Placed(t, run, all);
    PlacedOnce(t, run, all, ids);
    TidyAfter(t, u, run, rest);
  }
}
