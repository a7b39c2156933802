/** Runs and their steps: logging is all or nothing, and a run that has ended stays as it is
    (control-plane/src/application/experiment_tracking_service.py:209-250). */
module RunService {
  import opened OrderedDict
  import opened StepLogging

  datatype RunStatus = RUNNING | COMPLETED | FAILED

  datatype Run = Run(status: RunStatus, declared: set<string>)

  datatype Answer = Ok | NotFound | Terminal | Undeclared | Unavailable

  /** No metric beyond the experiment's template. */
  predicate AllDeclared(declared: set<string>, items: seq<Item>)
  {
    forall i | 0 <= i < |items| :: items[i].logged.Keys <= declared
  }

  class ExperimentRuns {
    var runs: map<RunId, Run>
    var steps: Steps
    var faults: seq<bool>

    constructor (faults: seq<bool>)
      ensures runs == map[] && steps == map[]
    {
      this.runs, this.steps, this.faults := map[], map[], faults;
    }

    method Fails() returns (failed: bool)
      modifies this`faults
    {
      failed := faults != [] && faults[0];
      faults := if faults == [] then [] else faults[1..];
    }

    /** `_normalize_step_items`: validate every item, keep the last one of each step. */
    method NormalizeStepItems(declared: set<string>, items: seq<Item>) returns (r: Option<seq<Item>>)
      ensures r == if AllDeclared(declared, items) then Some(Normalized(items)) else None
    {
      var grouped: Dict<nat, Item> := [];
      var i := 0;
      while i < |items|
        invariant 0 <= i <= |items|
        invariant AllDeclared(declared, items[..i])
        invariant Grouped([], items) == Grouped(grouped, items[i..])
      {
        if !(items[i].logged.Keys <= declared) {
          assert !AllDeclared(declared, items);
          return None;
        }
        grouped := Put(grouped, items[i].step, items[i]);
        assert items[i..][1..] == items[i + 1..];
        i := i + 1;
      }
      assert items[..|items|] == items && items[|items|..] == [];
      return Some(Values(grouped));
    }

    /** `append_run_steps`: the steps are as if the items had been logged one at a time, or nothing
        happened. */
    method AppendRunSteps(run: RunId, items: seq<Item>, clock: Clock) returns (answer: Answer)
      modifies this`steps, this`faults
      ensures answer == NotFound ==> run !in runs
      ensures answer == Terminal ==> run in runs && runs[run].status != RUNNING
      ensures answer == Undeclared ==> run in runs && !AllDeclared(runs[run].declared, items)
      ensures answer == Ok ==> run in runs && runs[run].status == RUNNING && AllDeclared(runs[run].declared, items)
      ensures steps == if answer == Ok then UpsertAll(old(steps), run, clock, items) else old(steps)
    {
      if run !in runs {
        return NotFound;
      }
      if runs[run].status != RUNNING {
        return Terminal;
      }
      var normalized := NormalizeStepItems(runs[run].declared, items);
      if normalized.None? {
        return Undeclared;
      }
      BatchRefinesSingles(steps, run, clock, items);
      var upserted := UpsertBatch(steps, run, clock, normalized.value);
      var upsertFailed := Fails();
      var commitFailed := Fails();
      if upserted.None? || upsertFailed || commitFailed {
        return Unavailable;
      }
      steps := upserted.value;
      return Ok;
    }

    /** `complete_run` and `fail_run`: only a running run can end, and it ends once. */
    method EndRun(run: RunId, status: RunStatus) returns (answer: Answer)
      requires status != RUNNING
      modifies this`runs, this`faults
      ensures answer == Ok ==> run in old(runs) && old(runs)[run].status == RUNNING
      ensures runs == if answer == Ok then old(runs)[run := old(runs)[run].(status := status)] else old(runs)
    {
      if run !in runs {
        return NotFound;
      }
      if runs[run].status != RUNNING {
        return Terminal;
      }
      var failed := Fails();
      if failed {
        return Unavailable;
      }
      runs := runs[run := runs[run].(status := status)];
      return Ok;
    }
  }
}
