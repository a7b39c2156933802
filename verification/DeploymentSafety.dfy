/** What every run keeps, with any number of workers, crashes and concurrent requests: who holds
    which task, and what the rows of deployments say. */
module DeploymentSafety {
  import opened OrderedDict
  import opened Deployments

  // ---- tasks and their claims -------------------------------------------------------

  /** Tasks are numbered as inserted, and wait exactly until they are claimed. */
  ghost predicate Numbered(db: Database, claims: seq<TaskId>)
  {
    && (forall t | t in db.tasks :: t < db.nextTask && (db.tasks[t].status == TASK_PENDING <==> t !in claims))
    && (forall t | t in claims :: t < db.nextTask)
  }

  /** No task was ever claimed twice. */
  ghost predicate ClaimedOnce(claims: seq<TaskId>)
  {
    forall i, j | 0 <= i < j < |claims| :: claims[i] != claims[j]
  }

  /** What a worker holds is a claimed task, in progress as long as it exists. */
  ghost predicate Holds(db: Database, claims: seq<TaskId>, p: Pc)
  {
    p.HasJob() ==>
      && p.job.task in claims
      && (p.job.task in db.tasks ==>
            db.tasks[p.job.task] == Task(p.job.deployment, p.job.kind, IN_PROGRESS, db.tasks[p.job.task].createdAt))
  }

  ghost predicate AllHold(db: Database, claims: seq<TaskId>, workers: map<WorkerId, Worker>)
  {
    forall w | w in workers :: Holds(db, claims, workers[w].pc)
  }

  ghost predicate SameTask(p: Pc, q: Pc)
  {
    p.HasJob() && q.HasJob() && p.job.task == q.job.task
  }

  /** Two workers never hold the same task. */
  ghost predicate HoldersApart(workers: map<WorkerId, Worker>)
  {
    forall v, w | v in workers && w in workers && v != w :: !SameTask(workers[v].pc, workers[w].pc)
  }

  ghost predicate TaskInv(s: State)
  {
    && Numbered(s.db, s.history.claims)
    && ClaimedOnce(s.history.claims)
    && AllHold(s.db, s.history.claims, s.workers)
    && HoldersApart(s.workers)
  }

  lemma InsertKeepsNumbers(db: Database, claims: seq<TaskId>, id: Id, kind: Kind, at: nat)
    requires Numbered(db, claims)
    ensures Numbered(InsertTask(db, id, kind, at), claims)
  {
  }

  lemma StatusKeepsNumbers(db: Database, claims: seq<TaskId>, id: Id, status: Status)
    requires Numbered(db, claims)
    ensures Numbered(SetStatus(db, id, status), claims)
  {
  }

  lemma CallKeepsNumbers(cfg: Config, db: Database, claims: seq<TaskId>, p: Pc)
    requires Numbered(db, claims) && p.HasJob() && Holds(db, claims, p)
    ensures Numbered(DatabaseAfter(cfg, db, p), claims)
  {
  }

  lemma KeepsNumbered(cfg: Config, s: State, e: Event)
    requires Enabled(s, e) && TaskInv(s)
    ensures Numbered(Apply(cfg, s, e).db, Apply(cfg, s, e).history.claims)
  {
    match e
    case Create(id, birth, at) =>
      InsertKeepsNumbers(s.db.(deployments := s.db.deployments[id := Deployment(birth, PENDING, None)]),
                         s.history.claims, id, DEPLOY, at);
    case RequestDelete(id, at) =>
      StatusKeepsNumbers(s.db, s.history.claims, id, DELETING);
      InsertKeepsNumbers(SetStatus(s.db, id, DELETING), s.history.claims, id, DELETE, at);
    case Claim(w, t, _) =>
      var claims := s.history.claims + [t];
      assert forall u :: u in claims <==> u in s.history.claims || u == t;
    case Call(w, outcome, _) =>
      CallKeepsNumbers(cfg, s.db, s.history.claims, s.workers[w].pc);
    case _ =>
  }

  lemma KeepsClaims(cfg: Config, s: State, e: Event)
    requires Enabled(s, e) && TaskInv(s)
    ensures ClaimedOnce(Apply(cfg, s, e).history.claims)
  {
    if e.Claim? {
      assert e.task !in s.history.claims;
    }
  }

  lemma KeepsHoldersApart(cfg: Config, s: State, e: Event)
    requires Enabled(s, e) && TaskInv(s)
    ensures HoldersApart(Apply(cfg, s, e).workers)
  {
    var n := Apply(cfg, s, e);
    forall v, w | v in n.workers && w in n.workers && v != w
      ensures !SameTask(n.workers[v].pc, n.workers[w].pc)
    {
      if e.Claim? {
        assert e.task !in s.history.claims;
        assert v != e.w ==> Holds(s.db, s.history.claims, s.workers[v].pc);
        assert w != e.w ==> Holds(s.db, s.history.claims, s.workers[w].pc);
      } else if v in s.workers && w in s.workers {
        assert !SameTask(s.workers[v].pc, s.workers[w].pc);
      }
    }
  }

  /** A job survives a change of the tables that leaves its task in progress or removes it. */
  lemma HoldsAfter(db: Database, next: Database, claims: seq<TaskId>, more: seq<TaskId>, p: Pc)
    requires Holds(db, claims, p) && claims <= more && Numbered(db, claims)
    requires p.HasJob() && p.job.task in next.tasks && p.job.task < db.nextTask ==>
               p.job.task in db.tasks && next.tasks[p.job.task] == db.tasks[p.job.task]
    ensures Holds(next, more, p)
  {
  }

  lemma KeepsHold(cfg: Config, s: State, e: Event, v: WorkerId)
    requires Enabled(s, e) && TaskInv(s) && v in Apply(cfg, s, e).workers
    ensures var n := Apply(cfg, s, e); Holds(n.db, n.history.claims, n.workers[v].pc)
  {
    var n := Apply(cfg, s, e);
    match e
    case Claim(w, t, _) =>
      if v != w {
        assert Holds(s.db, s.history.claims, s.workers[v].pc);
        HoldsAfter(s.db, n.db, s.history.claims, n.history.claims, s.workers[v].pc);
      } else {
        assert t in n.history.claims;
      }
    case Call(w, _, _) =>
      CallKeepsHold(cfg, s, e, v);
    case Start(w) =>
      assert v != w ==> Holds(s.db, s.history.claims, s.workers[v].pc);
    case _ =>
      assert Holds(s.db, s.history.claims, s.workers[v].pc);
  }

  lemma CallKeepsHold(cfg: Config, s: State, e: Event, v: WorkerId)
    requires e.Call? && Enabled(s, e) && TaskInv(s) && v in s.workers
    ensures var n := Apply(cfg, s, e); Holds(n.db, n.history.claims, n.workers[v].pc)
  {
    var p := s.workers[e.w].pc;
    assert Holds(s.db, s.history.claims, p);
    if v != e.w {
      assert Holds(s.db, s.history.claims, s.workers[v].pc);
      assert !SameTask(p, s.workers[v].pc);
      OtherTaskStays(cfg, s.db, p, s.workers[v].pc);
    } else if !LastCall(p) {
      OwnTaskStays(cfg, s.db, p);
    }
  }

  predicate LastCall(p: Pc)
  {
    p.Recording? || (p.Running? && p.call == MarkCompleted)
  }

  lemma OtherTaskStays(cfg: Config, db: Database, p: Pc, q: Pc)
    requires p.HasJob() && q.HasJob() ==> p.job.task != q.job.task
    requires p.HasJob()
    ensures q.HasJob() ==>
              && (q.job.task in DatabaseAfter(cfg, db, p).tasks <==> q.job.task in db.tasks)
              && (q.job.task in db.tasks ==> DatabaseAfter(cfg, db, p).tasks[q.job.task] == db.tasks[q.job.task])
  {
  }

  /** Only the last call of a job changes its task. */
  lemma OwnTaskStays(cfg: Config, db: Database, p: Pc)
    requires p.HasJob() && !LastCall(p)
    ensures DatabaseAfter(cfg, db, p).tasks == db.tasks
  {
  }

  lemma InitialTasks()
    ensures TaskInv(INITIAL)
  {
  }

  /** Every event keeps the task invariant. */
  lemma KeepsTasks(cfg: Config, s: State, e: Event)
    requires Enabled(s, e) && TaskInv(s)
    ensures TaskInv(Apply(cfg, s, e))
  {
    KeepsNumbered(cfg, s, e);
    KeepsClaims(cfg, s, e);
    KeepsHoldersApart(cfg, s, e);
    forall v | v in Apply(cfg, s, e).workers
      ensures Holds(Apply(cfg, s, e).db, Apply(cfg, s, e).history.claims, Apply(cfg, s, e).workers[v].pc)
    {
      KeepsHold(cfg, s, e, v);
    }
  }

  /** A task only moves from PENDING to IN_PROGRESS to COMPLETED or FAILED. */
  predicate MayBecome(a: TaskStatus, b: TaskStatus)
  {
    || a == b || a == TASK_PENDING || (a == IN_PROGRESS && b != TASK_PENDING)
  }

  predicate NextStatus(a: TaskStatus, b: TaskStatus)
  {
    || a == b
    || (a == TASK_PENDING && b == IN_PROGRESS)
    || (a == IN_PROGRESS && (b == COMPLETED || b == TASK_FAILED))
  }

  /** One event moves a task at most one step on. */
  lemma TaskStep(cfg: Config, s: State, e: Event, t: TaskId)
    requires Enabled(s, e) && TaskInv(s) && t in s.db.tasks && t in Apply(cfg, s, e).db.tasks
    ensures NextStatus(s.db.tasks[t].status, Apply(cfg, s, e).db.tasks[t].status)
  {
    if e.Call? {
      assert Holds(s.db, s.history.claims, s.workers[e.w].pc);
    }
  }

  /** A run from a state that keeps the invariant ends in one, and every task that is still there
      has moved only forwards. */
  lemma {:induction false} RunKeepsTasks(cfg: Config, s: State, es: seq<Event>)
    requires Legal(cfg, s, es) && TaskInv(s)
    ensures TaskInv(Run(cfg, s, es))
    ensures s.history.claims <= Run(cfg, s, es).history.claims
    decreases |es|
  {
    if es != [] {
      KeepsTasks(cfg, s, es[0]);
      RunKeepsTasks(cfg, Apply(cfg, s, es[0]), es[1..]);
    }
  }

  /** In every run each task is claimed at most once. */
  lemma ClaimedAtMostOnce(cfg: Config, es: seq<Event>)
    requires Legal(cfg, INITIAL, es)
    ensures ClaimedOnce(Run(cfg, INITIAL, es).history.claims)
  {
    InitialTasks();
    RunKeepsTasks(cfg, INITIAL, es);
  }

  lemma TaskGone(cfg: Config, s: State, e: Event, t: TaskId)
    requires Enabled(s, e) && t < s.db.nextTask && t !in s.db.tasks
    ensures t < Apply(cfg, s, e).db.nextTask && t !in Apply(cfg, s, e).db.tasks
  {
  }

  /** A task that was removed never comes back. */
  lemma {:induction false} GoneForGood(cfg: Config, s: State, es: seq<Event>, t: TaskId)
    requires Legal(cfg, s, es) && t < s.db.nextTask && t !in s.db.tasks
    ensures t !in Run(cfg, s, es).db.tasks
    decreases |es|
  {
    if es != [] {
      TaskGone(cfg, s, es[0], t);
      GoneForGood(cfg, Apply(cfg, s, es[0]), es[1..], t);
    }
  }

  /** Over any run a task keeps its deployment and its kind, never goes back to PENDING, and stays
      COMPLETED or FAILED once it is. */
  lemma {:induction false} TasksMoveForwards(cfg: Config, s: State, es: seq<Event>, t: TaskId)
    requires Legal(cfg, s, es) && TaskInv(s) && t in s.db.tasks && t in Run(cfg, s, es).db.tasks
    ensures var before, after := s.db.tasks[t], Run(cfg, s, es).db.tasks[t];
      MayBecome(before.status, after.status) && after == before.(status := after.status)
    decreases |es|
  {
    if es != [] {
      var n := Apply(cfg, s, es[0]);
      KeepsTasks(cfg, s, es[0]);
      if t !in n.db.tasks {
        assert t < s.db.nextTask;
        NextTaskGrows(cfg, s, es[0]);
        GoneForGood(cfg, n, es[1..], t);
      } else {
        TaskStep(cfg, s, es[0], t);
        TaskStays(cfg, s, es[0], t);
        TasksMoveForwards(cfg, n, es[1..], t);
      }
    }
  }

  lemma NextTaskGrows(cfg: Config, s: State, e: Event)
    requires Enabled(s, e)
    ensures s.db.nextTask <= Apply(cfg, s, e).db.nextTask
  {
  }

  lemma TaskStays(cfg: Config, s: State, e: Event, t: TaskId)
    requires Enabled(s, e) && t in s.db.tasks && t < s.db.nextTask && t in Apply(cfg, s, e).db.tasks
    ensures Apply(cfg, s, e).db.tasks[t] == s.db.tasks[t].(status := Apply(cfg, s, e).db.tasks[t].status)
  {
  }
}
