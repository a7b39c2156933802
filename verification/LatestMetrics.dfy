/** The latest metrics of a run, folded in Python and queried in SQL. */
module LatestMetrics {
  import opened OrderedDict
  import opened StepLogging

  /** One entry of `list_by_run`. */
  datatype RunStep = RunStep(step: nat, logged: Metrics)

  /** The query: the run's rows by ascending step. */
  ghost predicate Listed(t: Steps, run: RunId, list: seq<RunStep>)
  {
    && (forall i, j | 0 <= i < j < |list| :: list[i].step < list[j].step)
    && (forall i | 0 <= i < |list| :: (run, list[i].step) in t && t[(run, list[i].step)].logged == list[i].logged)
    && (forall n: nat | (run, n) in t :: exists i :: 0 <= i < |list| && list[i].step == n)
  }

  /** What `_latest_metrics_from_steps` computes: later steps overwrite earlier ones. */
  function Folded(list: seq<RunStep>): Metrics
  {
    if list == [] then map[] else Folded(list[..|list| - 1]) + list[|list| - 1].logged
  }

  /** The one row of the stat query: `WHERE run_id = ... AND logged_data ? metric ORDER BY step DESC
      LIMIT 1`, or no row. */
  ghost predicate StatAnswers(t: Steps, run: RunId, metric: string, answer: Option<real>)
  {
    match answer
    case None => forall n: nat | (run, n) in t :: metric !in t[(run, n)].logged
    case Some(v) =>
      exists n: nat :: Logs(t, run, n, metric) && t[(run, n)].logged[metric] == v
                       && forall m: nat | Logs(t, run, m, metric) :: m <= n
  }

  predicate Logs(t: Steps, run: RunId, n: nat, metric: string)
  {
    (run, n) in t && metric in t[(run, n)].logged
  }

  /** `_latest_metrics_from_steps`. */
  method LatestMetricsFromSteps(steps: seq<RunStep>) returns (latest: Metrics)
    ensures latest == Folded(steps)
  {
    latest := map[];
    var i := 0;
    while i < |steps|
      invariant 0 <= i <= |steps| && latest == Folded(steps[..i])
    {
      latest := Overwrite(latest, steps[i].logged);
      assert steps[..i + 1][..i] == steps[..i];
      i := i + 1;
    }
    assert steps[..|steps|] == steps;
  }

  /** Its inner loop: take over the metrics of one step, in any order. */
  method Overwrite(before: Metrics, logged: Metrics) returns (latest: Metrics)
    ensures latest == before + logged
  {
    latest := before;
    var todo := logged.Keys;
    while todo != {}
      invariant todo <= logged.Keys && latest.Keys == before.Keys + (logged.Keys - todo)
      invariant forall m | m in latest :: latest[m] == if m in logged && m !in todo then logged[m] else before[m]
      decreases |todo|
    {
      var m :| m in todo;
      latest := latest[m := logged[m]];
      todo := todo - {m};
    }
  }

  /** The stat query, run over the rows in any order. */
  method RunStatQuery(t: Steps, run: RunId, metric: string) returns (answer: Option<real>)
    ensures StatAnswers(t, run, metric, answer)
  {
    var todo := t.Keys;
    var best: nat := 0;
    answer := None;
    while todo != {}
      invariant todo <= t.Keys
      invariant answer.None? ==> forall n: nat | (run, n) in t && (run, n) !in todo :: metric !in t[(run, n)].logged
      invariant answer.Some? ==> Logs(t, run, best, metric) && t[(run, best)].logged[metric] == answer.value
      invariant answer.Some? ==> forall n: nat | Logs(t, run, n, metric) && (run, n) !in todo :: n <= best
      decreases |todo|
    {
      var key :| key in todo;
      todo := todo - {key};
      if key.0 == run && metric in t[key].logged && (answer.None? || best < key.1) {
        best, answer := key.1, Some(t[key].logged[metric]);
        assert key == (run, best);
      }
    }
  }

  /** The fold has a metric exactly if some step logs it, and then the value of the last such step. */
  lemma {:induction false} FoldTakesLast(list: seq<RunStep>, metric: string)
    ensures metric in Folded(list) <==> exists i :: 0 <= i < |list| && metric in list[i].logged
    ensures forall i | 0 <= i < |list| && metric in list[i].logged && (forall j | i < j < |list| :: metric !in list[j].logged) ::
              Folded(list)[metric] == list[i].logged[metric]
  {
    if list != [] {
      var front := list[..|list| - 1];
      FoldTakesLast(front, metric);
      if metric in list[|list| - 1].logged {
        assert metric in Folded(list);
      } else {
        assert metric in Folded(list) <==> metric in Folded(front);
        if i :| 0 <= i < |list| && metric in list[i].logged {
          assert front[i] == list[i];
        }
        forall i | 0 <= i < |list| && metric in list[i].logged && (forall j | i < j < |list| :: metric !in list[j].logged)
          ensures Folded(list)[metric] == list[i].logged[metric]
        {
          assert front[i] == list[i];
          assert forall j | i < j < |front| :: front[j] == list[j];
        }
      }
    }
  }

  /** The last step that logs the metric, if any. */
  lemma {:induction false} LastLogged(list: seq<RunStep>, metric: string) returns (i: nat)
    requires exists k :: 0 <= k < |list| && metric in list[k].logged
    ensures i < |list| && metric in list[i].logged && forall j | i < j < |list| :: metric !in list[j].logged
  {
    var last := |list| - 1;
    if metric in list[last].logged {
      i := last;
    } else {
      var k :| 0 <= k < |list| && metric in list[k].logged;
      assert list[..last][k] == list[k];
      i := LastLogged(list[..last], metric);
      forall j | i < j < |list|
        ensures metric !in list[j].logged
      {
        assert j < last ==> list[..last][j] == list[j];
      }
    }
  }

  /** An answer of the query comes from some step of the list. */
  lemma AnswerIsLogged(t: Steps, run: RunId, list: seq<RunStep>, metric: string, answer: Option<real>)
    requires Listed(t, run, list) && StatAnswers(t, run, metric, answer) && answer.Some?
    ensures exists k :: 0 <= k < |list| && metric in list[k].logged
  {
    var n: nat :| Logs(t, run, n, metric) && t[(run, n)].logged[metric] == answer.value;
    var k :| 0 <= k < |list| && list[k].step == n;
    assert metric in list[k].logged;
  }

  /** Fold and query agree on every table and every metric, and are absent together. */
  lemma FoldAgreesWithStat(t: Steps, run: RunId, list: seq<RunStep>, metric: string, answer: Option<real>)
    requires Listed(t, run, list) && StatAnswers(t, run, metric, answer)
    ensures answer == if metric in Folded(list) then Some(Folded(list)[metric]) else None
  {
    if answer.Some? {
      AnswerIsLogged(t, run, list, metric, answer);
    }
    FoldTakesLast(list, metric);
    if metric in Folded(list) {
      var i := LastLogged(list, metric);
      GreatestStep(t, run, list, metric, i, answer);
    }
  }

  lemma GreatestStep(t: Steps, run: RunId, list: seq<RunStep>, metric: string, i: nat, answer: Option<real>)
    requires Listed(t, run, list) && StatAnswers(t, run, metric, answer)
    requires i < |list| && metric in list[i].logged && forall j | i < j < |list| :: metric !in list[j].logged
    ensures answer == Some(list[i].logged[metric])
  {
    assert Logs(t, run, list[i].step, metric);
    var n: nat :| Logs(t, run, n, metric) && t[(run, n)].logged[metric] == answer.value
                  && forall m: nat | Logs(t, run, m, metric) :: m <= n;
    var k :| 0 <= k < |list| && list[k].step == n;
    StepsGrow(list, k, i);
    assert metric in list[k].logged;
  }

  lemma StepsGrow(list: seq<RunStep>, a: nat, b: nat)
    requires forall i, j | 0 <= i < j < |list| :: list[i].step < list[j].step
    requires a < |list| && b < |list|
    ensures a < b ==> list[a].step < list[b].step
  {
  }
}
