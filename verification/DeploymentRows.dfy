/** What the rows of deployments say in every run: which task a status waits for, and where an
    ACTIVE row sends the gateway. */
module DeploymentRows {
  import opened OrderedDict
  import opened Deployments
  import opened DeploymentSafety

  // ---- rows, tasks and jobs fit together --------------------------------------------

  ghost predicate RowsBorn(db: Database, born: map<Id, Birth>)
  {
    forall d | d in db.deployments :: d in born && db.deployments[d].birth == born[d]
  }

  ghost predicate TasksHaveRows(db: Database)
  {
    forall t | t in db.tasks :: db.tasks[t].deployment in db.deployments
  }

  predicate DeployCall(call: Call)
  {
    call in {MarkDeploying, ApplySecret, ApplyDeployment, ApplyService, AwaitAvailable, AwaitReady, MarkActive}
  }

  predicate DeleteCall(call: Call)
  {
    call in {MarkDeleting, DropDeployment, DropService, DropSecret, MarkDeleted}
  }

  /** A job is about a deployment that was created, its task is there as long as the row is, and
      its calls are those of its kind, made with the slug the deployment was created with. */
  ghost predicate JobFits(db: Database, born: map<Id, Birth>, p: Pc)
  {
    p.HasJob() ==>
      && p.job.deployment in born
      && (p.job.deployment in db.deployments ==> p.job.task in db.tasks)
      && (p.Running? ==>
            && p.spec.birth == born[p.job.deployment]
            && (DeployCall(p.call) ==> p.job.kind == DEPLOY)
            && (DeleteCall(p.call) ==> p.job.kind == DELETE))
  }

  ghost predicate JobsFit(db: Database, born: map<Id, Birth>, workers: map<WorkerId, Worker>)
  {
    forall w | w in workers :: JobFits(db, born, workers[w].pc)
  }

  /** No two rows have the same owner and slug. */
  ghost predicate SlugsUnique(db: Database)
  {
    forall c, d | c in db.deployments && d in db.deployments && SameSlug(db, c, d) :: c == d
  }

  predicate SameSlug(db: Database, c: Id, d: Id)
    requires c in db.deployments && d in db.deployments
  {
    db.deployments[c].birth.user == db.deployments[d].birth.user && db.deployments[c].birth.slug == db.deployments[d].birth.slug
  }

  /** The endpoint columns are empty or computed from the row itself, and filled in when ACTIVE. */
  predicate EndpointFits(cfg: Config, id: Id, d: Deployment)
  {
    && (d.endpoint.Some? ==> d.endpoint.value == EndpointOf(cfg, d.birth.slug, id))
    && (d.status == ACTIVE ==> d.endpoint.Some?)
  }

  ghost predicate EndpointsFit(cfg: Config, db: Database)
  {
    forall d | d in db.deployments :: EndpointFits(cfg, d, db.deployments[d])
  }

  ghost predicate RowInv(cfg: Config, s: State)
  {
    && RowsBorn(s.db, s.history.born)
    && TasksHaveRows(s.db)
    && JobsFit(s.db, s.history.born, s.workers)
    && SlugsUnique(s.db)
    && EndpointsFit(cfg, s.db)
  }

  lemma KeepsRowsBorn(cfg: Config, s: State, e: Event)
    requires Enabled(s, e) && RowsBorn(s.db, s.history.born)
    ensures RowsBorn(Apply(cfg, s, e).db, Apply(cfg, s, e).history.born)
  {
    var n := Apply(cfg, s, e);
    BornStays(cfg, s, e);
    forall d | d in n.db.deployments
      ensures d in n.history.born && n.db.deployments[d].birth == n.history.born[d]
    {
      RowAfter(cfg, s, e, d);
    }
  }

  lemma BornStays(cfg: Config, s: State, e: Event)
    requires Enabled(s, e)
    ensures forall d | d in s.history.born :: d in Apply(cfg, s, e).history.born
              && Apply(cfg, s, e).history.born[d] == s.history.born[d]
    ensures e.Create? ==> e.id in Apply(cfg, s, e).history.born && Apply(cfg, s, e).history.born[e.id] == e.birth
  {
  }

  /** A row is new, or it was there with the same birth; only calls touch its endpoint. */
  lemma RowAfter(cfg: Config, s: State, e: Event, d: Id)
    requires Enabled(s, e) && d in Apply(cfg, s, e).db.deployments
    ensures var row := Apply(cfg, s, e).db.deployments[d];
      if e.Create? && d == e.id then row == Deployment(e.birth, PENDING, None)
      else d in s.db.deployments && row.birth == s.db.deployments[d].birth
           && (!e.Call? ==> row.endpoint == s.db.deployments[d].endpoint
                            && (row.status == s.db.deployments[d].status || row.status == DELETING))
  {
  }

  lemma KeepsTaskRows(cfg: Config, s: State, e: Event)
    requires Enabled(s, e) && TasksHaveRows(s.db)
    ensures TasksHaveRows(Apply(cfg, s, e).db)
  {
  }

  lemma KeepsSlugs(cfg: Config, s: State, e: Event)
    requires Enabled(s, e) && SlugsUnique(s.db)
    ensures SlugsUnique(Apply(cfg, s, e).db)
  {
    var db, next := s.db, Apply(cfg, s, e).db;
    forall c, d | c in next.deployments && d in next.deployments && SameSlug(next, c, d)
      ensures c == d
    {
      RowAfter(cfg, s, e, c);
      RowAfter(cfg, s, e, d);
      if c in db.deployments && d in db.deployments && !(e.Create? && (c == e.id || d == e.id)) {
        assert SameSlug(db, c, d);
      }
    }
  }

  lemma CallKeepsEndpoint(cfg: Config, db: Database, born: map<Id, Birth>, p: Pc, d: Id)
    requires RowsBorn(db, born) && EndpointsFit(cfg, db) && JobFits(db, born, p) && p.HasJob()
    requires d in db.deployments
    ensures EndpointFits(cfg, d, DatabaseAfter(cfg, db, p).deployments[d])
  {
    assert EndpointFits(cfg, d, db.deployments[d]);
  }

  lemma KeepsEndpoints(cfg: Config, s: State, e: Event)
    requires Enabled(s, e) && RowInv(cfg, s)
    ensures EndpointsFit(cfg, Apply(cfg, s, e).db)
  {
    var next := Apply(cfg, s, e).db;
    forall d | d in next.deployments
      ensures EndpointFits(cfg, d, next.deployments[d])
    {
      RowAfter(cfg, s, e, d);
      if e.Call? {
        CallKeepsEndpoint(cfg, s.db, s.history.born, s.workers[e.w].pc, d);
      } else if d in s.db.deployments {
        assert EndpointFits(cfg, d, s.db.deployments[d]);
      }
    }
  }

  lemma KeepsJob(cfg: Config, s: State, e: Event, v: WorkerId)
    requires Enabled(s, e) && TaskInv(s) && RowInv(cfg, s) && v in Apply(cfg, s, e).workers
    ensures var n := Apply(cfg, s, e); JobFits(n.db, n.history.born, n.workers[v].pc)
  {
    var n := Apply(cfg, s, e);
    match e
    case Purge(id) =>
      var p := s.workers[v].pc;
      assert JobFits(s.db, s.history.born, p) && Holds(s.db, s.history.claims, p);
    case Start(w) =>
      assert v != w ==> JobFits(s.db, s.history.born, s.workers[v].pc);
    case Claim(w, t, _) =>
      assert v != w ==> JobFits(s.db, s.history.born, s.workers[v].pc);
      assert s.db.tasks[t].deployment in s.db.deployments;
    case Call(w, _, _) =>
      CallKeepsJob(cfg, s, e, v);
    case _ =>
      assert JobFits(s.db, s.history.born, s.workers[v].pc);
  }

  lemma CallKeepsJob(cfg: Config, s: State, e: Event, v: WorkerId)
    requires e.Call? && Enabled(s, e) && TaskInv(s) && RowInv(cfg, s) && v in s.workers
    ensures var n := Apply(cfg, s, e); JobFits(n.db, n.history.born, n.workers[v].pc)
  {
    var p, n := s.workers[e.w].pc, Apply(cfg, s, e);
    SameKeys(cfg, s.db, p);
    assert JobFits(s.db, s.history.born, p) && JobFits(s.db, s.history.born, s.workers[v].pc);
    if e.outcome.Returns? {
      NextPcFits(s.db, s.history.born, p, e.credentials);
    }
    FitsByKeys(s.db, n.db, s.history.born, n.workers[v].pc);
  }

  lemma FitsByKeys(db: Database, next: Database, born: map<Id, Birth>, p: Pc)
    requires JobFits(db, born, p) && db.tasks.Keys == next.tasks.Keys && db.deployments.Keys == next.deployments.Keys
    ensures JobFits(next, born, p)
  {
  }

  lemma NextPcFits(db: Database, born: map<Id, Birth>, p: Pc, credentials: bool)
    requires p.HasJob() && JobFits(db, born, p) && RowsBorn(db, born)
    requires p.Fetching? ==> p.job.deployment in db.deployments
    ensures JobFits(db, born, PcAfter(db, p, credentials))
  {
    if p.Running? && p.call != MarkCompleted {
      NextCallFits(p.spec, p.call);
    }
  }

  lemma SameKeys(cfg: Config, db: Database, p: Pc)
    requires p.HasJob()
    ensures DatabaseAfter(cfg, db, p).tasks.Keys == db.tasks.Keys
    ensures DatabaseAfter(cfg, db, p).deployments.Keys == db.deployments.Keys
  {
  }

  lemma NextCallFits(spec: Spec, call: Call)
    requires call != MarkCompleted
    ensures DeployCall(NextCall(spec, call)) ==> DeployCall(call)
    ensures DeleteCall(NextCall(spec, call)) ==> DeleteCall(call)
  {
  }

  /** Every event keeps the row invariant. */
  lemma KeepsRows(cfg: Config, s: State, e: Event)
    requires Enabled(s, e) && TaskInv(s) && RowInv(cfg, s)
    ensures RowInv(cfg, Apply(cfg, s, e))
  {
    KeepsRowsBorn(cfg, s, e);
    KeepsTaskRows(cfg, s, e);
    KeepsSlugs(cfg, s, e);
    KeepsEndpoints(cfg, s, e);
    forall v | v in Apply(cfg, s, e).workers
      ensures JobFits(Apply(cfg, s, e).db, Apply(cfg, s, e).history.born, Apply(cfg, s, e).workers[v].pc)
    {
      KeepsJob(cfg, s, e, v);
    }
  }

  // ---- statuses and the tasks they wait for -----------------------------------------

  /** Nobody who holds the task has made its last write to the row. */
  ghost predicate StillToWrite(workers: map<WorkerId, Worker>, t: TaskId)
  {
    forall w | w in workers && workers[w].pc.HasJob() && workers[w].pc.job.task == t :: !LastCall(workers[w].pc)
  }

  /** A task of the deployment that has not made its last write to the row. */
  ghost predicate Awaits(s: State, d: Id, t: TaskId, kind: Kind)
  {
    && t in s.db.tasks && s.db.tasks[t].deployment == d && s.db.tasks[t].kind == kind
    && (s.db.tasks[t].status == TASK_PENDING || s.db.tasks[t].status == IN_PROGRESS)
    && StillToWrite(s.workers, t)
  }

  ghost predicate Explained(s: State, d: Id)
    requires d in s.db.deployments
  {
    match s.db.deployments[d].status
    case PENDING => exists t :: Awaits(s, d, t, DEPLOY)
    case DEPLOYING => exists t :: Awaits(s, d, t, DEPLOY) && s.db.tasks[t].status == IN_PROGRESS
    case DELETING => exists t :: Awaits(s, d, t, DELETE)
    case _ => true
  }

  ghost predicate StatusInv(s: State)
  {
    forall d | d in s.db.deployments :: Explained(s, d)
  }

  /** The invariant of every run. */
  ghost predicate Inv(cfg: Config, s: State)
  {
    TaskInv(s) && RowInv(cfg, s) && StatusInv(s)
  }

  /** A task nobody has claimed is held by nobody. */
  lemma NotHeld(s: State, t: TaskId)
    requires TaskInv(s) && t !in s.history.claims
    ensures forall w | w in s.workers && s.workers[w].pc.HasJob() :: s.workers[w].pc.job.task != t
  {
    forall w | w in s.workers && s.workers[w].pc.HasJob()
      ensures s.workers[w].pc.job.task != t
    {
      assert Holds(s.db, s.history.claims, s.workers[w].pc);
    }
  }

  lemma NotifyKeepsHolders(workers: map<WorkerId, Worker>)
    ensures forall w | w in workers :: Notify(workers)[w].pc == workers[w].pc
  {
  }

  /** A new task waits for a worker. */
  lemma NewTaskAwaits(cfg: Config, s: State, e: Event)
    requires Enabled(s, e) && TaskInv(s)
    requires e.Create? || (e.RequestDelete? && s.db.deployments[e.id].status != DELETED)
    ensures Awaits(Apply(cfg, s, e), e.id, s.db.nextTask, if e.Create? then DEPLOY else DELETE)
  {
    NotHeld(s, s.db.nextTask);
    NotifyKeepsHolders(s.workers);
  }

  /** Events other than a call of its holder leave a task waiting as it was. */
  lemma AwaitsStays(cfg: Config, s: State, e: Event, d: Id, t: TaskId, kind: Kind)
    requires Enabled(s, e) && TaskInv(s) && Awaits(s, d, t, kind) && !e.Call?
    requires e.Purge? ==> e.id != d
    ensures Awaits(Apply(cfg, s, e), d, t, kind)
    ensures s.db.tasks[t].status == IN_PROGRESS ==> Apply(cfg, s, e).db.tasks[t].status == IN_PROGRESS
  {
    NotifyKeepsHolders(s.workers);
    assert t < s.db.nextTask;
  }

  /** Which rows a call gives a status that is still to be resolved. */
  predicate WritesTo(p: Pc, d: Id)
  {
    p.HasJob() && p.job.deployment == d
    && (p.Failing? || (p.Running? && p.call in {MarkDeploying, MarkActive, MarkDeleting, MarkDeleted}))
  }

  lemma AwaitsCall(cfg: Config, s: State, e: Event, d: Id, t: TaskId, kind: Kind)
    requires Enabled(s, e) && TaskInv(s) && Awaits(s, d, t, kind) && e.Call?
    requires !e.outcome.Returns? || !WritesTo(s.workers[e.w].pc, d)
    ensures Awaits(Apply(cfg, s, e), d, t, kind) && Apply(cfg, s, e).db.tasks[t] == s.db.tasks[t]
  {
    var p := s.workers[e.w].pc;
    assert Holds(s.db, s.history.claims, p);
    CallLeavesTask(cfg, s, e, t);
    var n := Apply(cfg, s, e);
    forall w | w in n.workers && n.workers[w].pc.HasJob() && n.workers[w].pc.job.task == t
      ensures !LastCall(n.workers[w].pc)
    {
      if w == e.w && e.outcome.Returns? {
        assert p.job.deployment == d;
      }
    }
  }

  /** A call changes only the task of its own job, and that with its last call. */
  lemma CallLeavesTask(cfg: Config, s: State, e: Event, t: TaskId)
    requires Enabled(s, e) && e.Call? && t in s.db.tasks
    requires s.workers[e.w].pc.job.task != t || !LastCall(s.workers[e.w].pc)
    ensures t in Apply(cfg, s, e).db.tasks && Apply(cfg, s, e).db.tasks[t] == s.db.tasks[t]
  {
  }

  /** The status a call writes. */
  lemma CallWrites(cfg: Config, s: State, e: Event, d: Id)
    requires Enabled(s, e) && e.Call? && d in s.db.deployments
    ensures d in Apply(cfg, s, e).db.deployments
    ensures var p, after := s.workers[e.w].pc, Apply(cfg, s, e).db.deployments[d].status;
      after == if !e.outcome.Returns? || !WritesTo(p, d) then s.db.deployments[d].status
               else if p.Failing? then FAILED
               else if p.call == MarkDeploying then DEPLOYING
               else if p.call == MarkActive then ACTIVE
               else if p.call == MarkDeleting then DELETING
               else DELETED
  {
  }

  /** Right after MARKing the row DEPLOYING or DELETING, the worker's own task explains it. */
  lemma OwnTaskAwaits(cfg: Config, s: State, e: Event, d: Id)
    requires Enabled(s, e) && TaskInv(s) && RowInv(cfg, s) && e.Call? && e.outcome.Returns? && d in s.db.deployments
    requires var p := s.workers[e.w].pc;
      WritesTo(p, d) && p.Running? && (p.call == MarkDeploying || p.call == MarkDeleting)
    ensures var p, n := s.workers[e.w].pc, Apply(cfg, s, e);
      Awaits(n, d, p.job.task, p.job.kind) && n.db.tasks[p.job.task].status == IN_PROGRESS
      && p.job.kind == if p.call == MarkDeploying then DEPLOY else DELETE
  {
    var p, n := s.workers[e.w].pc, Apply(cfg, s, e);
    assert Holds(s.db, s.history.claims, p) && JobFits(s.db, s.history.born, p);
    CallLeavesTask(cfg, s, e, p.job.task);
    forall w | w in n.workers && n.workers[w].pc.HasJob() && n.workers[w].pc.job.task == p.job.task
      ensures w == e.w
    {
      assert w != e.w ==> !SameTask(s.workers[w].pc, p);
    }
  }

  /** A call keeps every status explained. */
  lemma CallKeepsExplained(cfg: Config, s: State, e: Event, d: Id)
    requires Enabled(s, e) && Inv(cfg, s) && e.Call? && d in s.db.deployments
    ensures d in Apply(cfg, s, e).db.deployments && Explained(Apply(cfg, s, e), d)
  {
    var p, n := s.workers[e.w].pc, Apply(cfg, s, e);
    CallWrites(cfg, s, e, d);
    if e.outcome.Returns? && WritesTo(p, d) {
      if p.Running? && (p.call == MarkDeploying || p.call == MarkDeleting) {
        OwnTaskAwaits(cfg, s, e, d);
      }
    } else {
      StaysExplained(cfg, s, e, d);
    }
  }

  /** A row whose status an event leaves alone stays explained. */
  lemma StaysExplained(cfg: Config, s: State, e: Event, d: Id)
    requires Enabled(s, e) && Inv(cfg, s) && d in s.db.deployments && d in Apply(cfg, s, e).db.deployments
    requires Apply(cfg, s, e).db.deployments[d].status == s.db.deployments[d].status
    requires e.Call? ==> !e.outcome.Returns? || !WritesTo(s.workers[e.w].pc, d)
    requires e.Purge? ==> e.id != d
    ensures Explained(Apply(cfg, s, e), d)
  {
    assert Explained(s, d);
    forall t, kind | Awaits(s, d, t, kind)
      ensures Awaits(Apply(cfg, s, e), d, t, kind)
      ensures s.db.tasks[t].status == IN_PROGRESS ==> Apply(cfg, s, e).db.tasks[t].status == IN_PROGRESS
    {
      if e.Call? {
        AwaitsCall(cfg, s, e, d, t, kind);
      } else {
        AwaitsStays(cfg, s, e, d, t, kind);
      }
    }
  }

  lemma KeepsExplained(cfg: Config, s: State, e: Event, d: Id)
    requires Enabled(s, e) && Inv(cfg, s) && d in Apply(cfg, s, e).db.deployments
    ensures Explained(Apply(cfg, s, e), d)
  {
    if e.Call? {
      SameKeys(cfg, s.db, s.workers[e.w].pc);
      CallKeepsExplained(cfg, s, e, d);
    } else if (e.Create? || (e.RequestDelete? && s.db.deployments[e.id].status != DELETED)) && d == e.id {
      NewTaskAwaits(cfg, s, e);
    } else {
      StaysExplained(cfg, s, e, d);
    }
  }

  lemma InitialInv(cfg: Config)
    ensures Inv(cfg, INITIAL)
  {
  }

  /** Every event keeps the invariant. */
  lemma KeepsInv(cfg: Config, s: State, e: Event)
    requires Enabled(s, e) && Inv(cfg, s)
    ensures Inv(cfg, Apply(cfg, s, e))
  {
    KeepsTasks(cfg, s, e);
    KeepsRows(cfg, s, e);
    forall d | d in Apply(cfg, s, e).db.deployments
      ensures Explained(Apply(cfg, s, e), d)
    {
      KeepsExplained(cfg, s, e, d);
    }
  }

  lemma {:induction false} RunKeepsInv(cfg: Config, s: State, es: seq<Event>)
    requires Legal(cfg, s, es) && Inv(cfg, s)
    ensures Inv(cfg, Run(cfg, s, es))
    decreases |es|
  {
    if es != [] {
      KeepsInv(cfg, s, es[0]);
      RunKeepsInv(cfg, Apply(cfg, s, es[0]), es[1..]);
    }
  }

  // ---- what that means --------------------------------------------------------------

  /** In every run, PENDING means an unfinished DEPLOY task, DEPLOYING a DEPLOY task in progress,
      and DELETING an unfinished DELETE task. */
  lemma StatusesAreExplained(cfg: Config, es: seq<Event>, d: Id)
    requires Legal(cfg, INITIAL, es) && d in Run(cfg, INITIAL, es).db.deployments
    ensures var db := Run(cfg, INITIAL, es).db;
      var status := db.deployments[d].status;
      && (status == PENDING ==> exists t :: t in db.tasks && Unfinished(db.tasks[t], d, DEPLOY))
      && (status == DEPLOYING ==>
            exists t :: t in db.tasks && Unfinished(db.tasks[t], d, DEPLOY) && db.tasks[t].status == IN_PROGRESS)
      && (status == DELETING ==> exists t :: t in db.tasks && Unfinished(db.tasks[t], d, DELETE))
  {
    InitialInv(cfg);
    RunKeepsInv(cfg, INITIAL, es);
    var s := Run(cfg, INITIAL, es);
    assert Explained(s, d);
    forall t, kind | Awaits(s, d, t, kind)
      ensures Unfinished(s.db.tasks[t], d, kind)
    {
    }
  }

  predicate Unfinished(t: Task, d: Id, kind: Kind)
  {
    t.deployment == d && t.kind == kind && (t.status == TASK_PENDING || t.status == IN_PROGRESS)
  }

  /** In every run the gateway finds a target for a user's slug exactly when that user's row for it
      is ACTIVE, and the target is computed from that row. */
  lemma GatewayFindsActive(cfg: Config, es: seq<Event>, user: string, slug: string)
    requires Legal(cfg, INITIAL, es)
    ensures var db := Run(cfg, INITIAL, es).db;
      Lookup(db, user, slug) ==
        set d | d in db.deployments && db.deployments[d].birth.user == user
                && db.deployments[d].birth.slug == slug && db.deployments[d].status == ACTIVE ::
          var e := EndpointOf(cfg, slug, d); Target(d, e.namespace, e.serviceName, e.servicePort)
    ensures |Lookup(Run(cfg, INITIAL, es).db, user, slug)| <= 1
  {
    InitialInv(cfg);
    RunKeepsInv(cfg, INITIAL, es);
    var db := Run(cfg, INITIAL, es).db;
    forall d | d in db.deployments
      ensures EndpointFits(cfg, d, db.deployments[d])
    {
    }
    AtMostOne(db, user, slug);
  }

  lemma AtMostOne(db: Database, user: string, slug: string)
    requires SlugsUnique(db)
    ensures |Lookup(db, user, slug)| <= 1
  {
    var found := Lookup(db, user, slug);
    if found != {} {
      var x :| x in found;
      forall y | y in found
        ensures y == x
      {
        var c :| c in db.deployments && Routable(db.deployments[c], user, slug) && y.id == c;
        var d :| d in db.deployments && Routable(db.deployments[d], user, slug) && x.id == d;
        assert SameSlug(db, c, d);
      }
      assert found == {x};
    }
  }
}
