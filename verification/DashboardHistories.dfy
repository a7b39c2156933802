/** Any sequence of dashboard operations, failed or not, as long as compensations succeed. */
module DashboardHistories {
  import opened OrderedDict
  import opened RunDashboards
  import opened DashboardTables
  import opened DashboardService

  /** Both stores at one moment. */
  datatype Stores = Stores(table: Table, plots: Grafana)

  ghost predicate InStep(s: Stores) { Agree(s.table, s.plots) && Tidy(s.table) }

  /** What one operation may do: nothing, or what its success means. */
  ghost predicate Operation(a: Stores, b: Stores)
  {
    || a == b
    || (exists run, panel, id :: Created(a.table, a.plots, b.table, b.plots, run, panel, id))
    || (exists run, id, panel, order :: Updated(a.table, a.plots, b.table, b.plots, run, id, panel, order))
    || (exists run, id :: Deleted(a.table, a.plots, b.table, b.plots, run, id))
  }

  lemma CreatedKeepsStep(a: Stores, b: Stores, run: RunId, panel: Panel, id: Id)
    requires InStep(a) && Created(a.table, a.plots, b.table, b.plots, run, panel, id)
    ensures InStep(b)
  {
    var row := b.table[id];
    AddAgrees(a.table, a.plots, id, row, row.uid.value);
    assert TidyRun(a.table, run);
    var ids :| |ids| <= MAX_PLOTS && Placed(a.table, run, ids);
    OthersPlaced(a.table, b.table, run);
    TidyAfter(a.table, b.table, run, ids + [id]);
  }

  lemma UpdatedKeepsStep(a: Stores, b: Stores, run: RunId, id: Id, panel: Panel, order: Option<nat>)
    requires InStep(a) && Updated(a.table, a.plots, b.table, b.plots, run, id, panel, order)
    ensures InStep(b)
  {
    var t := a.table[id := a.table[id].(panel := panel)];
    EditAgrees(a.table, a.plots, id, panel);
    EditTidy(a.table, id, panel);
    OrdersKeepAgreement(t, b.table, run, b.plots);
    assert TidyRun(a.table, run);
    var ids :| |ids| <= MAX_PLOTS && Placed(a.table, run, ids);
    assert id in ids;
    if order.Some? {
      ReorderedPlaces(ids, id, order.value);
    }
    NumberedTidy(t, b.table, run, PlacesAfter(ids, id, order));
  }

  lemma DeletedKeepsStep(a: Stores, b: Stores, run: RunId, id: Id)
    requires InStep(a) && Deleted(a.table, a.plots, b.table, b.plots, run, id)
    ensures InStep(b)
  {
    RemoveAgrees(a.table, a.plots, id);
    OrdersKeepAgreement(a.table - {id}, b.table, run, b.plots);
    assert TidyRun(a.table, run);
    var ids :| |ids| <= MAX_PLOTS && Placed(a.table, run, ids);
    assert id in ids;
    RemainingRows(a.table, run, ids, id);
    OthersPlaced(a.table, b.table, run);
    TidyAfter(a.table, b.table, run, AllBut(ids, id));
  }

  lemma OperationKeepsStep(a: Stores, b: Stores)
    requires InStep(a) && Operation(a, b)
    ensures InStep(b)
  {
    if run, panel, id :| Created(a.table, a.plots, b.table, b.plots, run, panel, id) {
      CreatedKeepsStep(a, b, run, panel, id);
    } else if run, id, panel, order :| Updated(a.table, a.plots, b.table, b.plots, run, id, panel, order) {
      UpdatedKeepsStep(a, b, run, id, panel, order);
    } else if run, id :| Deleted(a.table, a.plots, b.table, b.plots, run, id) {
      DeletedKeepsStep(a, b, run, id);
    }
  }

  ghost predicate Operations(history: seq<Stores>)
  {
    history != [] && forall k | 0 <= k < |history| - 1 :: Operation(history[k], history[k + 1])
  }

  /** After every sequence of operations the stores agree, and every run has at most four plots
      with display orders 0 to n - 1. */
  lemma {:induction false} HistoryKeepsStep(history: seq<Stores>, k: nat)
    requires Operations(history) && InStep(history[0]) && k < |history|
    ensures InStep(history[k])
  {
    if k > 0 {
      HistoryKeepsStep(history, k - 1);
      OperationKeepsStep(history[k - 1], history[k]);
    }
  }

  datatype Request =
    | CreateRequest(run: RunId, declared: set<string>, panel: Panel, now: nat)
    | UpdateRequest(run: RunId, declared: set<string>, id: Id, patch: Patch)
    | DeleteRequest(run: RunId, id: Id)

  /** The service at work, until a compensation fails. Creation requests were validated. */
  method Serve(service: RunDashboardService, requests: seq<Request>) returns (results: seq<Result>, ghost history: seq<Stores>)
    requires service.Valid()
    requires forall q | q in requests && q.CreateRequest? :: WellFormed(q.panel)
    modifies service
    ensures Operations(history) && history[0] == Stores(old(service.table), old(service.plots))
    ensures (forall r | r in results :: !r.Torn?) ==>
      service.Valid() && |results| == |requests| && history[|history| - 1] == Stores(service.table, service.plots)
  {
    results, history := [], [Stores(service.table, service.plots)];
    var i := 0;
    while i < |requests|
      invariant 0 <= i <= |requests| && |results| == i
      invariant service.Valid() && Operations(history)
      invariant history[0] == Stores(old(service.table), old(service.plots))
      invariant history[|history| - 1] == Stores(service.table, service.plots)
    {
      var r := ServeOne(service, requests[i]);
      results := results + [r];
      if r.Torn? {
        assert results[i].Torn?;
        return;
      }
      history := history + [Stores(service.table, service.plots)];
      i := i + 1;
    }
  }

  method ServeOne(service: RunDashboardService, q: Request) returns (r: Result)
    requires service.Valid() && (q.CreateRequest? ==> WellFormed(q.panel))
    modifies service
    ensures !r.Torn? ==> service.Valid()
    ensures !r.Torn? ==> Operation(Stores(old(service.table), old(service.plots)), Stores(service.table, service.plots))
  {
    match q
    case CreateRequest(run, declared, panel, now) => r := service.CreateRunDashboard(run, declared, panel, now);
    case UpdateRequest(run, declared, id, patch) => r := service.UpdateRunDashboard(run, declared, id, patch);
    case DeleteRequest(run, id) => r := service.DeleteRunDashboard(run, id);
  }
}
