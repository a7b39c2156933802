/** A deletion requested while the deployment is still being deployed: the row may say ACTIVE in
    between, but the last word is the deletion's. */
module DeploymentDeletion {
  import opened Deployments
  import opened DeploymentSafety
  import opened DeploymentRows
  import opened DeploymentSettling
  import opened DeploymentPlacement

  // ---- one DEPLOY task for each deployment ------------------------------------------

  ghost predicate DeployedOnce(db: Database)
  {
    forall t, u | t in db.tasks && u in db.tasks && db.tasks[t].deployment == db.tasks[u].deployment ::
      db.tasks[t].kind == DEPLOY && db.tasks[u].kind == DEPLOY ==> t == u
  }

  /** What a task is apart from its status. */
  predicate SameKind(a: Task, b: Task) { a.deployment == b.deployment && a.kind == b.kind }

  /** A task that was not there before is the DEPLOY task of a new deployment, or a DELETE task. */
  lemma NewTask(cfg: Config, s: State, e: Event, t: TaskId)
    requires Enabled(s, e) && t in Apply(cfg, s, e).db.tasks && t !in s.db.tasks
    ensures var k := Apply(cfg, s, e).db.tasks[t];
      k.status == TASK_PENDING && t == s.db.nextTask
      && if e.Create? then k.kind == DEPLOY && k.deployment == e.id else k.kind == DELETE
  {
  }

  lemma KnownTask(cfg: Config, s: State, e: Event, t: TaskId)
    requires Enabled(s, e) && t in Apply(cfg, s, e).db.tasks && t in s.db.tasks && t < s.db.nextTask
    ensures SameKind(s.db.tasks[t], Apply(cfg, s, e).db.tasks[t])
  {
  }

  lemma KeepsDeployedOnce(cfg: Config, s: State, e: Event)
    requires Enabled(s, e) && Inv(cfg, s) && DeployedOnce(s.db)
    ensures DeployedOnce(Apply(cfg, s, e).db)
  {
    var n := Apply(cfg, s, e);
    forall t | t in n.db.tasks
      ensures t in s.db.tasks ==> SameKind(s.db.tasks[t], n.db.tasks[t]) && s.db.tasks[t].deployment in s.history.born
      ensures t !in s.db.tasks && n.db.tasks[t].kind == DEPLOY ==> e.Create? && n.db.tasks[t].deployment == e.id && t == s.db.nextTask
    {
      if t in s.db.tasks {
        KnownTask(cfg, s, e, t);
      } else {
        NewTask(cfg, s, e, t);
      }
    }
  }

  lemma {:induction false} RunKeepsDeployedOnce(cfg: Config, s: State, es: seq<Event>)
    requires Legal(cfg, s, es) && Inv(cfg, s) && DeployedOnce(s.db)
    ensures Inv(cfg, Run(cfg, s, es)) && DeployedOnce(Run(cfg, s, es).db)
    decreases |es|
  {
    if es != [] {
      KeepsInv(cfg, s, es[0]);
      KeepsDeployedOnce(cfg, s, es[0]);
      RunKeepsDeployedOnce(cfg, Apply(cfg, s, es[0]), es[1..]);
    }
  }

  // ---- the deletion comes last ------------------------------------------------------

  /** A DEPLOY task of `d` that waits for a worker. */
  predicate DeployWaits(db: Database, d: Id, u: TaskId)
  {
    IsPending(db, u) && db.tasks[u].deployment == d && db.tasks[u].kind == DEPLOY
  }

  /** The DELETE task `t` is there as long as its deployment `d`, every DEPLOY task of `d` still to be
      claimed is older and will be claimed before it, and once `t` is claimed the last claim of `d`
      is a deletion. */
  ghost predicate DeletionComes(s: State, d: Id, t: TaskId)
  {
    && d in s.history.born && t < s.db.nextTask
    && (d in s.db.deployments ==> t in s.db.tasks)
    && (t in s.db.tasks ==> s.db.tasks[t].deployment == d && s.db.tasks[t].kind == DELETE)
    && (forall u | DeployWaits(s.db, d, u) :: IsPending(s.db, t) && s.db.tasks[u].createdAt < s.db.tasks[t].createdAt)
    && (t in s.db.tasks && !IsPending(s.db, t) ==> LatestDeletes(s, d))
  }

  predicate LatestDeletes(s: State, d: Id)
  {
    d in s.history.latest && var u := s.history.latest[d]; u in s.db.tasks && s.db.tasks[u].kind == DELETE
  }

  lemma StillThere(cfg: Config, s: State, e: Event, d: Id, t: TaskId)
    requires Enabled(s, e) && Inv(cfg, s) && DeletionComes(s, d, t)
    ensures var n := Apply(cfg, s, e);
      && d in n.history.born && t < n.db.nextTask
      && (d in n.db.deployments ==> t in n.db.tasks)
      && (t in n.db.tasks ==> t in s.db.tasks && n.db.tasks[t].deployment == d && n.db.tasks[t].kind == DELETE)
  {
    var n := Apply(cfg, s, e);
    BornStays(cfg, s, e);
    NextTaskGrows(cfg, s, e);
    if t in n.db.tasks {
      if t !in s.db.tasks {
        NewTask(cfg, s, e, t);
      }
      KnownTask(cfg, s, e, t);
    }
    if d in n.db.deployments {
      RowAfter(cfg, s, e, d);
      TaskRemains(cfg, s, e, d, t);
    }
  }

  lemma TaskRemains(cfg: Config, s: State, e: Event, d: Id, t: TaskId)
    requires Enabled(s, e) && t in s.db.tasks && s.db.tasks[t].deployment == d && d in Apply(cfg, s, e).db.deployments
    ensures t in Apply(cfg, s, e).db.tasks
  {
  }

  /** No event makes a task wait again. */
  lemma PendingBefore(cfg: Config, s: State, e: Event, u: TaskId)
    requires Enabled(s, e) && TaskInv(s) && u in s.db.tasks && IsPending(Apply(cfg, s, e).db, u)
    ensures IsPending(s.db, u) && Apply(cfg, s, e).db.tasks[u] == s.db.tasks[u]
  {
    TaskStep(cfg, s, e, u);
    TaskStays(cfg, s, e, u);
  }

  lemma ClaimedBefore(cfg: Config, s: State, e: Event, t: TaskId)
    requires Enabled(s, e) && !(e.Claim? && e.task == t) && t in s.db.tasks && t in Apply(cfg, s, e).db.tasks
    requires !IsPending(Apply(cfg, s, e).db, t) && TaskInv(s)
    ensures !IsPending(s.db, t)
  {
    if e.Call? {
      assert Holds(s.db, s.history.claims, s.workers[e.w].pc);
    }
  }

  /** The only worker claims no task while an older one waits. */
  lemma OldestFirst(s: State, e: Event, u: TaskId)
    requires e.Claim? && Enabled(s, e) && Alone(s) && IsPending(s.db, u)
    ensures s.db.tasks[e.task].createdAt <= s.db.tasks[u].createdAt
  {
    NoLocks(s, e.w, e.locked);
  }

  /** A DEPLOY task that waits after an event waited before it, and the deletion waits behind it. */
  lemma DeploysWaitInFront(cfg: Config, s: State, e: Event, d: Id, t: TaskId, u: TaskId)
    requires Enabled(s, e) && Alone(s) && Inv(cfg, s) && DeletionComes(s, d, t) && DeployWaits(Apply(cfg, s, e).db, d, u)
    ensures var n := Apply(cfg, s, e); IsPending(n.db, t) && n.db.tasks[u].createdAt < n.db.tasks[t].createdAt
  {
    var n := Apply(cfg, s, e);
    if u !in s.db.tasks {
      NewTask(cfg, s, e, u);
    }
    PendingBefore(cfg, s, e, u);
    assert DeployWaits(s.db, d, u);
    StillThere(cfg, s, e, d, t);
    KeepsInv(cfg, s, e);
    assert n.db.tasks[u].deployment in n.db.deployments;
    if e.Claim? && e.task == t {
      OldestFirst(s, e, u);
    } else if !IsPending(n.db, t) {
      ClaimedBefore(cfg, s, e, t);
    } else {
      PendingBefore(cfg, s, e, t);
    }
  }

  lemma LatestStillDeletes(cfg: Config, s: State, e: Event, d: Id, t: TaskId)
    requires Enabled(s, e) && Inv(cfg, s) && LatestFits(s) && DeletionComes(s, d, t)
    requires t in s.db.tasks && t in Apply(cfg, s, e).db.tasks && !IsPending(Apply(cfg, s, e).db, t)
    ensures LatestDeletes(Apply(cfg, s, e), d)
  {
    if !(e.Claim? && e.task == t) {
      ClaimedBefore(cfg, s, e, t);
      if e.Claim? && s.db.tasks[e.task].deployment == d {
        assert !DeployWaits(s.db, d, e.task);
      } else {
        assert s.db.tasks[s.history.latest[d]].deployment == d;
        LatestRemains(cfg, s, e, d, t);
      }
    }
  }

  lemma LatestRemains(cfg: Config, s: State, e: Event, d: Id, t: TaskId)
    requires Enabled(s, e) && !(e.Claim? && s.db.tasks[e.task].deployment == d) && LatestDeletes(s, d)
    requires s.history.latest[d] < s.db.nextTask && s.db.tasks[s.history.latest[d]].deployment == d
    requires t in s.db.tasks && s.db.tasks[t].deployment == d && t in Apply(cfg, s, e).db.tasks && t < s.db.nextTask
    ensures LatestDeletes(Apply(cfg, s, e), d)
  {
    assert Apply(cfg, s, e).history.latest[d] == s.history.latest[d];
  }

  ghost predicate DeletionInv(cfg: Config, s: State, d: Id, t: TaskId)
  {
    Alone(s) && Inv(cfg, s) && LatestFits(s) && DeletionComes(s, d, t)
  }

  lemma KeepsDeletion(cfg: Config, s: State, e: Event, d: Id, t: TaskId)
    requires Enabled(s, e) && InTurn(s, e) && DeletionInv(cfg, s, d, t)
    ensures DeletionInv(cfg, Apply(cfg, s, e), d, t)
  {
    var n := Apply(cfg, s, e);
    KeepsAlone(cfg, s, e);
    KeepsInv(cfg, s, e);
    KeepsLatestFits(cfg, s, e);
    StillThere(cfg, s, e, d, t);
    forall u | DeployWaits(n.db, d, u)
      ensures IsPending(n.db, t) && n.db.tasks[u].createdAt < n.db.tasks[t].createdAt
    {
      DeploysWaitInFront(cfg, s, e, d, t, u);
    }
    if t in n.db.tasks && !IsPending(n.db, t) {
      LatestStillDeletes(cfg, s, e, d, t);
    }
  }

  lemma {:induction false} RunKeepsDeletion(cfg: Config, s: State, es: seq<Event>, d: Id, t: TaskId)
    requires Legal(cfg, s, es) && OneByOne(cfg, s, es) && DeletionInv(cfg, s, d, t)
    ensures DeletionInv(cfg, Run(cfg, s, es), d, t)
    decreases |es|
  {
    if es != [] {
      KeepsDeletion(cfg, s, es[0], d, t);
      RunKeepsDeletion(cfg, Apply(cfg, s, es[0]), es[1..], d, t);
    }
  }

  /** A deletion can be requested, and is dated after any DEPLOY task that still waits. */
  ghost predicate DeploysBefore(db: Database, d: Id, at: nat)
  {
    && d in db.deployments && db.deployments[d].status != DELETED
    && forall u | DeployWaits(db, d, u) :: db.tasks[u].createdAt < at
  }

  lemma RequestComes(cfg: Config, s: State, d: Id, at: nat)
    requires Inv(cfg, s) && DeploysBefore(s.db, d, at)
    ensures DeletionComes(Apply(cfg, s, RequestDelete(d, at)), d, s.db.nextTask)
  {
    var n := Apply(cfg, s, RequestDelete(d, at));
    forall v | DeployWaits(n.db, d, v)
      ensures n.db.tasks[v].createdAt < at
    {
      assert v != s.db.nextTask ==> DeployWaits(s.db, d, v);
    }
  }

  lemma {:induction false} RunKeepsLatestFits(cfg: Config, s: State, es: seq<Event>)
    requires Legal(cfg, s, es) && OneByOne(cfg, s, es) && Alone(s) && Inv(cfg, s) && LatestFits(s)
    ensures Alone(Run(cfg, s, es)) && Inv(cfg, Run(cfg, s, es)) && LatestFits(Run(cfg, s, es))
    decreases |es|
  {
    if es != [] {
      KeepsAlone(cfg, s, es[0]);
      KeepsInv(cfg, s, es[0]);
      KeepsLatestFits(cfg, s, es[0]);
      RunKeepsLatestFits(cfg, Apply(cfg, s, es[0]), es[1..]);
    }
  }

  lemma DeletionCame(cfg: Config, before: seq<Event>, after: seq<Event>, d: Id, at: nat)
    requires var es := before + ([RequestDelete(d, at)] + after); Legal(cfg, INITIAL, es) && OneByOne(cfg, INITIAL, es)
    requires Legal(cfg, INITIAL, before) && DeploysBefore(Run(cfg, INITIAL, before).db, d, at)
    ensures DeletionInv(cfg, Run(cfg, INITIAL, before + ([RequestDelete(d, at)] + after)), d, Run(cfg, INITIAL, before).db.nextTask)
  {
    var e, s := RequestDelete(d, at), Run(cfg, INITIAL, before);
    OneByOneSplit(cfg, INITIAL, before, [e] + after);
    OneByOneSplit(cfg, s, [e], after);
    RunSplit(cfg, INITIAL, before, [e] + after);
    RunSplit(cfg, s, [e], after);
    RunOne(cfg, s, e);
    InitialInv(cfg);
    RunKeepsLatestFits(cfg, INITIAL, before);
    RequestComes(cfg, s, d, at);
    KeepsAlone(cfg, s, e);
    KeepsInv(cfg, s, e);
    KeepsLatestFits(cfg, s, e);
    RunKeepsDeletion(cfg, Apply(cfg, s, e), after, d, s.db.nextTask);
  }

  /** With one worker at a time, a deletion dated after any DEPLOY task that still waits has the last
      word: when the worker finds no pending task, the last claimed task is a deletion, and if it
      was completed the deployment is DELETED with nothing of it in the cluster. */
  lemma DeletionWins(cfg: Config, before: seq<Event>, after: seq<Event>, d: Id, at: nat, w: WorkerId)
    requires var es := before + ([RequestDelete(d, at)] + after);
      Legal(cfg, INITIAL, es) && OneByOne(cfg, INITIAL, es) && NamesApart(Run(cfg, INITIAL, es).history.born)
      && Enabled(Run(cfg, INITIAL, es), FindNone(w, {})) && d in Run(cfg, INITIAL, es).db.deployments
    requires Legal(cfg, INITIAL, before) && DeploysBefore(Run(cfg, INITIAL, before).db, d, at)
    ensures DeletedAtLast(cfg, Run(cfg, INITIAL, before + ([RequestDelete(d, at)] + after)), d)
  {
    var es := before + ([RequestDelete(d, at)] + after);
    DeletionCame(cfg, before, after, d, at);
    SettledWhenDrained(cfg, es, w, d);
    assert !IsPending(Run(cfg, INITIAL, es).db, Run(cfg, INITIAL, before).db.nextTask);
  }

  ghost predicate DeletedAtLast(cfg: Config, s: State, d: Id)
    requires d in s.db.deployments
  {
    && SettledByLatest(cfg, s, d)
    && var t := s.db.tasks[s.history.latest[d]];
       t.kind == DELETE
       && (t.status == COMPLETED ==> s.db.deployments[d].status == DELETED && Absent(s.cluster, s.db.deployments[d].birth.slug, d))
  }

  /** `u` is the DEPLOY task of `d`, and a worker has taken it. */
  predicate DeployTaken(db: Database, d: Id, u: TaskId)
  {
    u in db.tasks && db.tasks[u].deployment == d && db.tasks[u].kind == DEPLOY && !IsPending(db, u)
  }

  /** In particular, so has a deletion requested once the DEPLOY task has been taken, whatever its date. */
  lemma DeletionWinsMidway(cfg: Config, before: seq<Event>, after: seq<Event>, d: Id, at: nat, u: TaskId, w: WorkerId)
    requires var es := before + ([RequestDelete(d, at)] + after);
      Legal(cfg, INITIAL, es) && OneByOne(cfg, INITIAL, es) && NamesApart(Run(cfg, INITIAL, es).history.born)
      && Enabled(Run(cfg, INITIAL, es), FindNone(w, {})) && d in Run(cfg, INITIAL, es).db.deployments
    requires Legal(cfg, INITIAL, before) && DeployTaken(Run(cfg, INITIAL, before).db, d, u)
    requires var s := Run(cfg, INITIAL, before); d in s.db.deployments && s.db.deployments[d].status != DELETED
    ensures DeletedAtLast(cfg, Run(cfg, INITIAL, before + ([RequestDelete(d, at)] + after)), d)
  {
    InitialInv(cfg);
    RunKeepsDeployedOnce(cfg, INITIAL, before);
    DeletionWins(cfg, before, after, d, at, w);
  }
}
