/** The dashboard operations of the experiment service, on two stores that may fail at any call.

    Postgres calls work on the session's copy of the table; a commit makes it the table, a rollback
    drops it. A call that raises has no effect. Identifiers are fresh. Requests are served one at
    a time. */
module DashboardService {
  import opened OrderedDict
  import opened RunDashboards
  import opened DashboardTables

  datatype Error = UndeclaredMetrics | TooManyPlots | NotFound | InvalidPlot | Unavailable

  /** `Refused`: raised before anything changed. `Undone`: raised after Grafana changed, and the
      compensating call succeeded. `Torn`: the compensating call raised as well. */
  datatype Result =
    | Done(id: Id)
    | Refused(error: Error)
    | Undone
    | Torn(uid: Uid)

  /** `RunDashboardUpdate`: absent fields, and an empty title or list of metrics, keep what is there. */
  datatype Patch = Patch(title: Option<string>, plotType: Option<PlotType>, metrics: Option<seq<string>>, order: Option<nat>)

  // ---- what a successful operation did ----------------------------------------------

  ghost predicate Created(t: Table, g: Grafana, u: Table, h: Grafana, run: RunId, panel: Panel, id: Id)
  {
    && id !in t && id in u && u[id].run == run && u[id].panel == panel && u == t[id := u[id]]
    && u[id].uid.Some? && u[id].uid.value !in g && h == g[u[id].uid.value := Plot(run, panel)]
    && (forall ids | Placed(t, run, ids) :: |ids| < MAX_PLOTS && Placed(u, run, ids + [id]))
  }

  ghost predicate Updated(t: Table, g: Grafana, u: Table, h: Grafana, run: RunId, id: Id, panel: Panel, order: Option<nat>)
  {
    && id in t && t[id].run == run && t[id].uid.Some?
    && OrdersOnly(t[id := t[id].(panel := panel)], u, run)
    && h == g[t[id].uid.value := Plot(run, panel)]
    && (forall ids | Placed(t, run, ids) :: ids != [] && Placed(u, run, PlacesAfter(ids, id, order)))
  }

  ghost predicate Deleted(t: Table, g: Grafana, u: Table, h: Grafana, run: RunId, id: Id)
  {
    && id in t && t[id].run == run && t[id].uid.Some?
    && OrdersOnly(t - {id}, u, run)
    && h == g - {t[id].uid.value}
    && (forall ids | Placed(t, run, ids) :: Placed(u, run, AllBut(ids, id)))
  }

  /** The places of a run's rows after an update. */
  function PlacesAfter(placed: seq<Id>, id: Id, order: Option<nat>): seq<Id>
  {
    if placed != [] && order.Some? then Reordered(placed, id, order.value) else placed
  }

  /** Identifiers not yet used. */
  ghost predicate Fresh(t: Table, g: Grafana, nextId: Id, nextUid: Uid)
  {
    (forall id | id in t :: id < nextId) && forall u | u in g :: u < nextUid
  }

  lemma FreshAfterUpdate(t: Table, g: Grafana, u: Table, h: Grafana, run: RunId, id: Id, panel: Panel, order: Option<nat>, nextId: Id, nextUid: Uid)
    requires Fresh(t, g, nextId, nextUid) && Updated(t, g, u, h, run, id, panel, order) && t[id].uid.value in g
    ensures Fresh(u, h, nextId, nextUid)
  {
  }

  /** Putting back what was there before the change restores the map. */
  lemma PutBack(before: Grafana, g: Grafana, uid: Uid, plot: Plot)
    requires uid in before && g == before[uid := plot]
    ensures g[uid := before[uid]] == before
  {
  }

  lemma CreatedBy(t: Table, g: Grafana, u: Table, h: Grafana, id: Id, row: Row, uid: Uid, placed: seq<Id>)
    requires Agree(t, g) && id !in t && uid !in g && row.uid == Some(uid)
    requires u == t[id := row] && h == g[uid := Plot(row.run, row.panel)]
    requires Placed(t, row.run, placed) && |placed| < MAX_PLOTS && Placed(u, row.run, placed + [id])
    ensures Created(t, g, u, h, row.run, row.panel, id) && Agree(u, h)
  {
    AddAgrees(t, g, id, row, uid);
    forall ids | Placed(t, row.run, ids)
      ensures ids == placed
    {
      PlacedOnce(t, row.run, ids, placed);
    }
  }

  lemma UpdatedBy(t: Table, g: Grafana, u: Table, h: Grafana, run: RunId, id: Id, panel: Panel, order: Option<nat>, placed: seq<Id>)
    requires Agree(t, g) && id in t && t[id].run == run && t[id].uid.Some?
    requires OrdersOnly(t[id := t[id].(panel := panel)], u, run) && h == g[t[id].uid.value := Plot(run, panel)]
    requires Placed(t, run, placed) && placed != [] && Placed(u, run, PlacesAfter(placed, id, order))
    ensures Updated(t, g, u, h, run, id, panel, order) && Agree(u, h)
  {
    EditAgrees(t, g, id, panel);
    OrdersKeepAgreement(t[id := t[id].(panel := panel)], u, run, h);
    forall ids | Placed(t, run, ids)
      ensures ids == placed
    {
      PlacedOnce(t, run, ids, placed);
    }
  }

  lemma DeletedBy(t: Table, g: Grafana, u: Table, h: Grafana, run: RunId, id: Id, placed: seq<Id>)
    requires Agree(t, g) && id in t && t[id].run == run && t[id].uid.Some?
    requires OrdersOnly(t - {id}, u, run) && h == g - {t[id].uid.value}
    requires Placed(t, run, placed) && Placed(u, run, AllBut(placed, id))
    ensures Deleted(t, g, u, h, run, id) && Agree(u, h)
  {
    RemoveAgrees(t, g, id);
    OrdersKeepAgreement(t - {id}, u, run, h);
    forall ids | Placed(t, run, ids)
      ensures ids == placed
    {
      PlacedOnce(t, run, ids, placed);
    }
  }

  predicate Declared(metrics: seq<string>, declared: set<string>)
  {
    forall m | m in metrics :: m in declared
  }

  /** `given or existing`: an empty value counts as absent. */
  function GivenOr<T(==)>(given: Option<seq<T>>, existing: seq<T>): seq<T>
  {
    if given.Some? && given.value != [] then given.value else existing
  }

  /** The patched panel. */
  function Patched(p: Panel, patch: Patch): Panel
  {
    Panel(GivenOr(patch.title, p.title),
          if patch.plotType.Some? then patch.plotType.value else p.plotType,
          GivenOr(patch.metrics, p.metrics))
  }

  class RunDashboardService {
    var table: Table
    var session: Table
    var plots: Grafana
    var faults: seq<bool>
    var nextId: Id
    var nextUid: Uid

    /** Between requests: the stores agree, every run is tidy, and identifiers are fresh. */
    ghost predicate Valid()
      reads this
    {
      Agree(table, plots) && Tidy(table) && session == table && Fresh(table, plots, nextId, nextUid)
    }

    constructor (faults: seq<bool>)
      ensures Valid() && table == map[] && plots == map[]
    {
      this.table, this.session, this.plots := map[], map[], map[];
      this.faults := faults;
      this.nextId, this.nextUid := 0, 0;
      new;
      forall run
        ensures TidyRun(table, run)
      {
        assert Placed(table, run, []);
      }
    }

    /** Whether the next call raises. */
    method Fails() returns (failed: bool)
      modifies this`faults
    {
      failed := faults != [] && faults[0];
      faults := if faults == [] then [] else faults[1..];
    }

    // ---- the repository -------------------------------------------------------------

    method ListByRun(run: RunId) returns (ok: bool, ids: seq<Id>)
      modifies this`faults
      ensures ok ==> Listing(session, run, ids)
    {
      var failed := Fails();
      ok := !failed;
      ids := [];
      ghost var all := set id | id in session && session[id].run == run;
      var todo := set id | id in session && session[id].run == run;
      while todo != {}
        invariant todo <= all && Distinct(ids) && (forall id :: id in ids <==> id in all && id !in todo)
        invariant (forall i | 0 <= i < |ids| :: ids[i] in session) && forall id | id in todo :: id in session
        invariant forall i, j | 0 <= i < j < |ids| :: Before(session[ids[i]], session[ids[j]])
        invariant forall i, id | 0 <= i < |ids| && id in todo :: Before(session[ids[i]], session[id])
        decreases |todo|
      {
        ghost var first := FirstRow(session, todo);
        var id :| id in todo && forall other | other in todo :: Before(session[id], session[other]);
        ids := ids + [id];
        todo := todo - {id};
      }
    }

    method CreateRow(id: Id, row: Row) returns (ok: bool)
      modifies this`session, this`faults
      ensures session == if ok then old(session)[id := row] else old(session)
    {
      var failed := Fails();
      if !failed {
        session := session[id := row];
      }
      ok := !failed;
    }

    /** `update_run_dashboard` with a new panel; false when the row is gone or the call raises. */
    method UpdatePanel(id: Id, panel: Panel) returns (ok: bool)
      modifies this`session, this`faults
      ensures ok ==> id in old(session) && session == old(session)[id := old(session)[id].(panel := panel)]
      ensures !ok ==> session == old(session)
    {
      var failed := Fails();
      ok := !failed && id in session;
      if ok {
        session := session[id := session[id].(panel := panel)];
      }
    }

    method UpdateOrder(id: Id, order: nat) returns (ok: bool)
      modifies this`session, this`faults
      ensures ok ==> id in old(session) && session == old(session)[id := old(session)[id].(order := order)]
      ensures !ok ==> session == old(session)
    {
      var failed := Fails();
      ok := !failed && id in session;
      if ok {
        session := session[id := session[id].(order := order)];
      }
    }

    method DeleteRow(id: Id) returns (ok: bool)
      modifies this`session, this`faults
      ensures ok ==> id in old(session) && session == old(session) - {id}
      ensures !ok ==> session == old(session)
    {
      var failed := Fails();
      ok := !failed && id in session;
      if ok {
        session := session - {id};
      }
    }

    method Commit() returns (ok: bool)
      modifies this`table, this`faults
      ensures table == if ok then session else old(table)
    {
      var failed := Fails();
      ok := !failed;
      if ok {
        table := session;
      }
    }

    method Rollback()
      modifies this`session
      ensures session == table
    {
      session := table;
    }

    // ---- Grafana --------------------------------------------------------------------

    /** Without an identifier the plot gets a new one. */
    method UpsertRunPlot(given: Option<Uid>, plot: Plot) returns (ok: bool, uid: Uid)
      modifies this`plots, this`faults, this`nextUid
      ensures uid == if given.Some? then given.value else old(nextUid)
      ensures nextUid == if given.Some? then old(nextUid) else old(nextUid) + 1
      ensures plots == if ok then old(plots)[uid := plot] else old(plots)
    {
      if given.Some? {
        uid := given.value;
      } else {
        uid, nextUid := nextUid, nextUid + 1;
      }
      var failed := Fails();
      if !failed {
        plots := plots[uid := plot];
      }
      ok := !failed;
    }

    method DeleteDashboard(uid: Uid) returns (ok: bool)
      modifies this`plots, this`faults
      ensures plots == if ok then old(plots) - {uid} else old(plots)
    {
      var failed := Fails();
      if !failed {
        plots := plots - {uid};
      }
      ok := !failed;
    }

    // ---- the loops ------------------------------------------------------------------

    /** The rows of the run that are in the list, and stay the same except for their order. */
    ghost predicate RowsOf(run: RunId, ids: seq<Id>)
      reads this
    {
      forall k | 0 <= k < |ids| :: ids[k] in session && session[ids[k]].run == run
    }

    /** The loop of `_reorder_run_dashboards`: number the list from 0 on. */
    method NumberFromZero(run: RunId, ids: seq<Id>) returns (ok: bool)
      requires Distinct(ids) && RowsOf(run, ids)
      modifies this`session, this`faults
      ensures ok ==> OrdersOnly(old(session), session, run) && Numbered(session, ids)
    {
      ok := true;
      var i := 0;
      while i < |ids|
        invariant 0 <= i <= |ids| && RowsOf(run, ids)
        invariant OrdersOnly(old(session), session, run)
        invariant forall k | 0 <= k < i :: session[ids[k]].order == k
      {
        ok := UpdateOrder(ids[i], i);
        if !ok { return; }
        i := i + 1;
      }
    }

    /** `_reorder_run_dashboards`. */
    method Reorder(run: RunId, id: Id, target: int, ghost placed: seq<Id>) returns (ok: bool)
      requires Placed(session, run, placed) && id in placed
      modifies this`session, this`faults
      ensures ok ==> OrdersOnly(old(session), session, run) && Numbered(session, Reordered(placed, id, target))
    {
      var ids;
      ok, ids := ListByRun(run);
      if ok {
        ListingIsPlaced(session, run, placed, ids);
        ReorderedPlaces(ids, id, target);
        ok := NumberFromZero(run, Reordered(ids, id, target));
      }
    }

    /** `_reindex_run_dashboards`: close the gap a deletion left. */
    method Reindex(run: RunId, ghost rest: seq<Id>) returns (ok: bool)
      requires forall listed | Listing(session, run, listed) :: listed == rest
      modifies this`session, this`faults
      ensures ok ==> OrdersOnly(old(session), session, run) && Numbered(session, rest)
    {
      var ids;
      ok, ids := ListByRun(run);
      if !ok { return; }
      var i := 0;
      while i < |ids|
        invariant 0 <= i <= |ids|
        invariant OrdersOnly(old(session), session, run)
        invariant forall k | 0 <= k < i :: session[ids[k]].order == k
        invariant forall k | 0 <= k < |ids| :: ids[k] in session && session[ids[k]].run == run
      {
        if session[ids[i]].order != i {
          ok := UpdateOrder(ids[i], i);
          if !ok { return; }
        }
        i := i + 1;
      }
    }

    // ---- the database part of each operation ----------------------------------------

    method StoreNew(row: Row, ghost placed: seq<Id>) returns (ok: bool, id: Id)
      requires Tidy(table) && session == table && nextId !in table
      requires Placed(table, row.run, placed) && row.order == |placed| < MAX_PLOTS
      modifies this`table, this`session, this`faults, this`nextId
      ensures id == old(nextId) && nextId == id + 1
      ensures table == if ok then old(table)[id := row] else old(table)
      ensures ok ==> session == table && Tidy(table) && Placed(table, row.run, placed + [id])
    {
      id := nextId;
      nextId := nextId + 1;
      ok := CreateRow(id, row);
      if ok {
        AddPlaces(table, id, row, placed);
        AddTidy(table, id, row, placed);
        ok := Commit();
      }
    }

    method StoreUpdate(run: RunId, id: Id, panel: Panel, order: Option<nat>, ghost placed: seq<Id>) returns (ok: bool)
      requires Tidy(table) && session == table && id in table && table[id].run == run
      requires Placed(table, run, placed) && id in placed && |placed| <= MAX_PLOTS
      modifies this`table, this`session, this`faults
      ensures !ok ==> table == old(table)
      ensures ok ==> session == table && Tidy(table)
      ensures ok ==> OrdersOnly(old(table)[id := old(table)[id].(panel := panel)], table, run)
      ensures ok ==> Placed(table, run, PlacesAfter(placed, id, order))
    {
      ok := UpdatePanel(id, panel);
      if !ok { return; }
      ghost var edited := session;
      EditPlaces(table, id, panel, run, placed);
      EditTidy(table, id, panel);
      if order.Some? {
        ok := Reorder(run, id, order.value, placed);
        if !ok { return; }
        ReorderedPlaces(placed, id, order.value);
        NumberedPlaces(edited, session, run, Reordered(placed, id, order.value));
        NumberedTidy(edited, session, run, Reordered(placed, id, order.value));
      }
      ok := Commit();
    }

    method StoreDeletion(run: RunId, id: Id, ghost placed: seq<Id>) returns (ok: bool)
      requires Tidy(table) && session == table && id in table && table[id].run == run
      requires Placed(table, run, placed) && id in placed
      modifies this`table, this`session, this`faults
      ensures !ok ==> table == old(table)
      ensures ok ==> session == table && Tidy(table)
      ensures ok ==> OrdersOnly(old(table) - {id}, table, run)
      ensures ok ==> Placed(table, run, AllBut(placed, id))
    {
      ok := DeleteRow(id);
      if !ok { return; }
      forall listed | Listing(session, run, listed)
        ensures listed == AllBut(placed, id)
      {
        ListedRest(table, run, placed, id, listed);
      }
      ok := Reindex(run, AllBut(placed, id));
      if !ok { return; }
      RemoveTidy(table, session, id, placed);
      ok := Commit();
    }

    // ---- the operations -------------------------------------------------------------

    /** The identifiers of a tidy run, in display order. */
    ghost method PlacesOf(run: RunId) returns (placed: seq<Id>)
      requires Tidy(table)
      ensures |placed| <= MAX_PLOTS && Placed(table, run, placed)
    {
      assert TidyRun(table, run);
      placed :| |placed| <= MAX_PLOTS && Placed(table, run, placed);
    }

    /** `create_run_dashboard`. */
    method CreateRunDashboard(run: RunId, declared: set<string>, panel: Panel, now: nat) returns (r: Result)
      requires Valid() && WellFormed(panel)
      modifies this
      ensures !r.Torn? ==> Valid()
      ensures r == Refused(UndeclaredMetrics) <==> !Declared(panel.metrics, declared)
      ensures r == Refused(TooManyPlots) ==> exists ids :: Placed(old(table), run, ids) && |ids| >= MAX_PLOTS
      ensures r.Done? ==> Created(old(table), old(plots), table, plots, run, panel, r.id)
      ensures !r.Done? ==> table == old(table)
      ensures r.Refused? || r.Undone? ==> plots == old(plots)
      ensures r.Torn? ==> r.uid !in old(plots) && plots == old(plots)[r.uid := Plot(run, panel)]
    {
      if !Declared(panel.metrics, declared) {
        return Refused(UndeclaredMetrics);
      }
      var listed, existing := ListByRun(run);
      if !listed {
        return Refused(Unavailable);
      }
      ghost var placed := PlacesOf(run);
      ListingIsPlaced(table, run, placed, existing);
      if |existing| >= MAX_PLOTS {
        return Refused(TooManyPlots);
      }
      r := ShowAndStore(run, panel, now, placed, |existing|);
    }

    /** The rest of it, once the request is accepted. */
    method ShowAndStore(run: RunId, panel: Panel, now: nat, ghost placed: seq<Id>, count: nat) returns (r: Result)
      requires Valid() && Placed(table, run, placed) && count == |placed| < MAX_PLOTS
      modifies this
      ensures !r.Torn? ==> Valid()
      ensures r.Done? ==> Created(old(table), old(plots), table, plots, run, panel, r.id)
      ensures !r.Done? ==> table == old(table)
      ensures r.Refused? ==> r.error == Unavailable
      ensures r.Refused? || r.Undone? ==> plots == old(plots)
      ensures r.Torn? ==> r.uid !in old(plots) && plots == old(plots)[r.uid := Plot(run, panel)]
    {
      var shown, uid := UpsertRunPlot(None, Plot(run, panel));
      if !shown {
        return Refused(Unavailable);
      }
      var row := Row(run, panel, count, Some(uid), now);
      var stored, id := StoreNew(row, placed);
      if stored {
        CreatedBy(old(table), old(plots), table, plots, id, row, uid, placed);
        return Done(id);
      }
      Rollback();
      var removed := DeleteDashboard(uid);
      assert removed ==> plots == old(plots);
      return if removed then Undone else Torn(uid);
    }

    /** `update_run_dashboard`. */
    method UpdateRunDashboard(run: RunId, declared: set<string>, id: Id, patch: Patch) returns (r: Result)
      requires Valid()
      modifies this
      ensures !r.Torn? ==> Valid()
      ensures r == Refused(NotFound) ==> !(id in old(table) && old(table)[id].run == run)
      ensures r == Refused(InvalidPlot) ==> id in old(table) && !WellFormed(Patched(old(table)[id].panel, patch))
      ensures r == Refused(UndeclaredMetrics) ==>
        id in old(table) && !Declared(Patched(old(table)[id].panel, patch).metrics, declared)
      ensures r.Done? ==>
        && id in old(table) && r.id == id
        && var panel := Patched(old(table)[id].panel, patch);
           && WellFormed(panel) && Declared(panel.metrics, declared)
           && Updated(old(table), old(plots), table, plots, run, id, panel, patch.order)
      ensures !r.Done? ==> table == old(table)
      ensures r.Refused? || r.Undone? ==> plots == old(plots)
      ensures r.Torn? ==>
        id in old(table) && plots == old(plots)[r.uid := Plot(run, Patched(old(table)[id].panel, patch))]
    {
      var failed := Fails();
      if failed {
        return Refused(Unavailable);
      }
      if id !in session || session[id].run != run {
        return Refused(NotFound);
      }
      var panel := Patched(session[id].panel, patch);
      if !WellFormed(panel) {
        return Refused(InvalidPlot);
      }
      if !Declared(panel.metrics, declared) {
        return Refused(UndeclaredMetrics);
      }
      assert Shown(table[id], plots);
      if panel != session[id].panel {
        var shown, uid := UpsertRunPlot(session[id].uid, Plot(run, panel));
        if !shown {
          return Refused(Unavailable);
        }
      }
      r := UpdateStored(run, id, panel, patch.order, old(plots));
    }

    /** Its `try` statement: Grafana already shows the new panel. */
    method UpdateStored(run: RunId, id: Id, panel: Panel, order: Option<nat>, ghost before: Grafana) returns (r: Result)
      requires Tidy(table) && session == table && Agree(table, before) && Fresh(table, before, nextId, nextUid)
      requires id in table && table[id].run == run && Shown(table[id], before)
      requires plots == before[table[id].uid.value := Plot(run, panel)]
      modifies this
      ensures !r.Torn? ==> Valid()
      ensures !r.Refused?
      ensures r.Done? ==> r.id == id && Updated(old(table), before, table, plots, run, id, panel, order)
      ensures !r.Done? ==> table == old(table)
      ensures r.Undone? ==> plots == before
      ensures r.Torn? ==> plots == old(plots) && old(table)[id].uid == Some(r.uid)
    {
      var existing := session[id];
      ghost var placed := PlacesOf(run);
      var stored := StoreUpdate(run, id, panel, order, placed);
      if stored {
        UpdatedBy(old(table), before, table, plots, run, id, panel, order, placed);
        FreshAfterUpdate(old(table), before, table, plots, run, id, panel, order, nextId, nextUid);
        return Done(id);
      }
      Rollback();
      PutBack(before, plots, existing.uid.value, Plot(run, panel));
      r := RestorePanel(run, existing, panel);
    }

    /** Its handler. */
    method RestorePanel(run: RunId, existing: Row, panel: Panel) returns (r: Result)
      requires existing.uid.Some?
      modifies this`plots, this`faults, this`nextUid
      ensures r.Undone? || (r.Torn? && existing.uid == Some(r.uid))
      ensures r.Torn? ==> plots == old(plots)
      ensures r.Undone? ==>
        plots == if panel != existing.panel then old(plots)[existing.uid.value := Plot(run, existing.panel)] else old(plots)
      ensures nextUid == old(nextUid)
    {
      if panel != existing.panel {
        var restored, uid := UpsertRunPlot(existing.uid, Plot(run, existing.panel));
        if !restored {
          return Torn(uid);
        }
      }
      return Undone;
    }

    /** `delete_run_dashboard`. */
    method DeleteRunDashboard(run: RunId, id: Id) returns (r: Result)
      requires Valid()
      modifies this
      ensures !r.Torn? ==> Valid()
      ensures r == Refused(NotFound) ==> !(id in old(table) && old(table)[id].run == run)
      ensures r.Done? ==> r.id == id && Deleted(old(table), old(plots), table, plots, run, id)
      ensures !r.Done? ==> table == old(table)
      ensures r.Refused? || r.Undone? ==> plots == old(plots)
      ensures r.Torn? ==> id in old(table) && old(table)[id].uid == Some(r.uid) && plots == old(plots) - {r.uid}
    {
      var failed := Fails();
      if failed {
        return Refused(Unavailable);
      }
      if id !in session || session[id].run != run {
        return Refused(NotFound);
      }
      assert Shown(table[id], plots);
      if session[id].uid.Some? {
        var removed := DeleteDashboard(session[id].uid.value);
        if !removed {
          return Refused(Unavailable);
        }
      }
      r := DeleteStored(run, id, old(plots));
    }

    /** Its `try` statement: Grafana no longer has the plot. */
    method DeleteStored(run: RunId, id: Id, ghost before: Grafana) returns (r: Result)
      requires Tidy(table) && session == table && Agree(table, before) && Fresh(table, before, nextId, nextUid)
      requires id in table && table[id].run == run && Shown(table[id], before)
      requires plots == before - {table[id].uid.value}
      modifies this
      ensures !r.Torn? ==> Valid()
      ensures !r.Refused?
      ensures r.Done? ==> r.id == id && Deleted(old(table), before, table, plots, run, id)
      ensures !r.Done? ==> table == old(table)
      ensures r.Undone? ==> plots == before
      ensures r.Torn? ==> plots == old(plots) && old(table)[id].uid == Some(r.uid)
    {
      var existing := session[id];
      ghost var placed := PlacesOf(run);
      var stored := StoreDeletion(run, id, placed);
      if stored {
        DeletedBy(old(table), before, table, plots, run, id, placed);
        return Done(id);
      }
      Rollback();
      if existing.uid.Some? {
        var restored, uid := UpsertRunPlot(existing.uid, Plot(run, existing.panel));
        if !restored {
          return Torn(uid);
        }
      }
      assert plots == before;
      return Undone;
    }
  }
}
