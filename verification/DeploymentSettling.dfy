/** One worker at a time: whenever it finds no pending task, every deployment has the status and the
    cluster objects its last task left. */
module DeploymentSettling {
  import opened KubernetesNames
  import opened Slugs
  import opened Deployments
  import opened DeploymentSafety
  import opened DeploymentRows

  // ---- the runs ---------------------------------------------------------------------

  /** The names of two deployments never clash, in all of history. */
  ghost predicate NamesApart(born: map<Id, Birth>)
  {
    forall c, d | c in born && d in born && c != d ::
      WorkloadName(born[c].slug, c) != WorkloadName(born[d].slug, d) && PullSecretName(c) != PullSecretName(d)
  }

  /** Slugs the naming scheme has room for, and identifiers that differ early enough. */
  ghost predicate RoomForNames(born: map<Id, Birth>)
  {
    && (forall d | d in born :: SlugShaped(born[d].slug) && |born[d].slug| <= 37 && UuidText(d))
    && (forall c, d | c in born && d in born && c != d ::
          (born[c].slug != born[d].slug || Suffix(c) != Suffix(d)) && IdDigits(c)[..12] != IdDigits(d)[..12])
  }

  /** Then the names never clash. */
  lemma RoomKeepsNamesApart(born: map<Id, Birth>)
    requires RoomForNames(born)
    ensures NamesApart(born)
  {
    forall c, d | c in born && d in born && c != d
      ensures WorkloadName(born[c].slug, c) != WorkloadName(born[d].slug, d) && PullSecretName(c) != PullSecretName(d)
    {
      if WorkloadName(born[c].slug, c) == WorkloadName(born[d].slug, d) {
        WorkloadNamesInjective(born[c].slug, c, born[d].slug, d);
      }
      if PullSecretName(c) == PullSecretName(d) {
        SecretNamesInjective(c, d);
      }
    }
  }

  /** A worker starts only when no other is running, and no task is dated before an earlier one. */
  predicate InTurn(s: State, e: Event)
  {
    match e
    case Start(_) => s.workers == map[]
    case Create(_, _, at) => forall t | t in s.db.tasks :: s.db.tasks[t].createdAt <= at
    case RequestDelete(_, at) => forall t | t in s.db.tasks :: s.db.tasks[t].createdAt <= at
    case _ => true
  }

  predicate OneByOne(cfg: Config, s: State, es: seq<Event>)
    requires Legal(cfg, s, es)
    decreases |es|
  {
    es == [] || (InTurn(s, es[0]) && OneByOne(cfg, Apply(cfg, s, es[0]), es[1..]))
  }

  lemma {:induction false} OneByOneSplit(cfg: Config, s: State, es: seq<Event>, fs: seq<Event>)
    requires Legal(cfg, s, es + fs) && OneByOne(cfg, s, es + fs)
    ensures Legal(cfg, s, es) && OneByOne(cfg, s, es)
    ensures Legal(cfg, Run(cfg, s, es), fs) && OneByOne(cfg, Run(cfg, s, es), fs)
    decreases |es|
  {
    if es == [] {
      assert es + fs == fs;
    } else {
      assert (es + fs)[1..] == es[1..] + fs;
      OneByOneSplit(cfg, Apply(cfg, s, es[0]), es[1..], fs);
    }
  }

  // ---- the order of claims ----------------------------------------------------------

  ghost predicate Alone(s: State)
  {
    forall v, w | v in s.workers && w in s.workers :: v == w
  }

  /** Tasks are claimed oldest first, and the last claim of a deployment is its newest claimed task. */
  ghost predicate ClaimsInOrder(s: State)
  {
    && ClaimedFirst(s.db)
    && (forall t | t in s.db.tasks && s.db.tasks[t].status != TASK_PENDING :: NotAfterLatest(s, t))
  }

  predicate NotAfterLatest(s: State, t: TaskId)
    requires t in s.db.tasks
  {
    var d := s.db.tasks[t].deployment;
    && d in s.history.latest
    && var u := s.history.latest[d];
       u in s.db.tasks && s.db.tasks[u].deployment == d && s.db.tasks[t].createdAt <= s.db.tasks[u].createdAt
  }

  /** What the worker holds is the last claim of its deployment. */
  ghost predicate HoldsLatest(s: State)
  {
    forall w | w in s.workers && s.workers[w].pc.HasJob() :: LatestIs(s.history, s.workers[w].pc.job)
  }

  predicate LatestIs(h: History, job: Job)
  {
    job.deployment in h.latest && h.latest[job.deployment] == job.task
  }

  // ---- the cluster ------------------------------------------------------------------

  /** Every object belongs to a deployment that was claimed at some time, under that deployment's
      own name; only image deployments have secrets. */
  ghost predicate Owned(c: Cluster, h: History)
  {
    OwnNames(c.workloads, h) && OwnNames(c.services, h) && OwnSecrets(c.secrets, h)
  }

  ghost predicate OwnNames(m: map<string, Id>, h: History)
  {
    forall n | n in m :: OwnName(h, n, m[n])
  }

  ghost predicate OwnSecrets(m: map<string, Id>, h: History)
  {
    forall n | n in m :: OwnSecret(h, n, m[n])
  }

  predicate OwnName(h: History, n: string, o: Id)
  {
    o in h.born && o in h.latest && n == WorkloadName(h.born[o].slug, o)
  }

  predicate OwnSecret(h: History, n: string, o: Id)
  {
    o in h.born && o in h.latest && n == PullSecretName(o) && h.born[o].image
  }

  predicate HasWorkload(c: Cluster, slug: string, id: Id)
  {
    WorkloadName(slug, id) in c.workloads && c.workloads[WorkloadName(slug, id)] == id
  }

  predicate HasService(c: Cluster, slug: string, id: Id)
  {
    WorkloadName(slug, id) in c.services && c.services[WorkloadName(slug, id)] == id
  }

  /** The deployment's workload and service are in the cluster. */
  predicate Present(c: Cluster, slug: string, id: Id)
  {
    HasWorkload(c, slug, id) && HasService(c, slug, id)
  }

  /** Nothing of the deployment is in the cluster. */
  predicate Absent(c: Cluster, slug: string, id: Id)
  {
    WorkloadName(slug, id) !in c.workloads && WorkloadName(slug, id) !in c.services && PullSecretName(id) !in c.secrets
  }

  // ---- where a deployment is --------------------------------------------------------

  /** A delete was requested and its task has not been claimed. */
  ghost predicate Requested(db: Database, d: Id)
  {
    exists t :: t in db.tasks && db.tasks[t] == Task(d, DELETE, TASK_PENDING, db.tasks[t].createdAt)
  }

  /** The status is as said, unless a delete request overwrote it. */
  ghost predicate Says(db: Database, d: Id, status: Status)
    requires d in db.deployments
  {
    db.deployments[d].status == status || (db.deployments[d].status == DELETING && Requested(db, d))
  }

  predicate ActiveIsPresent(db: Database, c: Cluster, d: Id)
    requires d in db.deployments
  {
    db.deployments[d].status == ACTIVE ==> Present(c, db.deployments[d].birth.slug, d)
  }

  /** What holds of a deployment while the worker is about to make the given call for it. */
  ghost predicate Underway(db: Database, c: Cluster, d: Id, p: Pc)
    requires d in db.deployments && p.HasJob()
  {
    var slug := db.deployments[d].birth.slug;
    match p
    case Recording(_) => Says(db, d, FAILED)
    case Running(job, spec, call) =>
      (match call
       case ApplySecret => Says(db, d, DEPLOYING)
       case ApplyDeployment => Says(db, d, DEPLOYING)
       case ApplyService => Says(db, d, DEPLOYING) && HasWorkload(c, slug, d)
       case AwaitAvailable => Says(db, d, DEPLOYING) && Present(c, slug, d)
       case AwaitReady => Says(db, d, DEPLOYING) && Present(c, slug, d)
       case MarkActive => Says(db, d, DEPLOYING) && Present(c, slug, d)
       case DropDeployment => Says(db, d, DELETING)
       case DropService => Says(db, d, DELETING) && WorkloadName(slug, d) !in c.workloads
       case DropSecret =>
         Says(db, d, DELETING) && WorkloadName(slug, d) !in c.workloads && WorkloadName(slug, d) !in c.services
       case MarkDeleted => Says(db, d, DELETING) && Absent(c, slug, d)
       case MarkCompleted =>
         if job.kind == DEPLOY then Says(db, d, ACTIVE) && Present(c, slug, d)
         else Says(db, d, DELETED) && Absent(c, slug, d)
       case _ => true)
    case _ => true
  }

  /** What holds of a deployment when the given task was its last claim and nobody works on it. */
  ghost predicate Left(db: Database, c: Cluster, d: Id, t: TaskId)
    requires d in db.deployments
  {
    var slug := db.deployments[d].birth.slug;
    t in db.tasks ==>
      match db.tasks[t].status
      case COMPLETED =>
        if db.tasks[t].kind == DEPLOY then Says(db, d, ACTIVE) && Present(c, slug, d)
        else Says(db, d, DELETED) && Absent(c, slug, d)
      case TASK_FAILED => Says(db, d, FAILED)
      case _ => true
  }

  ghost predicate HeldBy(s: State, d: Id, w: WorkerId)
  {
    w in s.workers && s.workers[w].pc.HasJob() && s.workers[w].pc.job.deployment == d
  }

  ghost predicate Placed(s: State, d: Id)
    requires d in s.db.deployments
  {
    && ActiveIsPresent(s.db, s.cluster, d)
    && (forall w | HeldBy(s, d, w) :: Underway(s.db, s.cluster, d, s.workers[w].pc))
    && ((forall w | w in s.workers :: !HeldBy(s, d, w)) && d in s.history.latest ==>
          Left(s.db, s.cluster, d, s.history.latest[d]))
  }

  ghost predicate AllPlaced(s: State)
  {
    forall d | d in s.db.deployments :: Placed(s, d)
  }

  /** The last claim of a deployment is a task of that deployment. */
  ghost predicate LatestFits(s: State)
  {
    forall d | d in s.history.latest ::
      var t := s.history.latest[d];
      d in s.history.born && t < s.db.nextTask && (t in s.db.tasks ==> s.db.tasks[t].deployment == d)
  }

  /** Until its first claim a deployment is PENDING or DELETING; from then on its last claimed task
      stays as long as its row. */
  ghost predicate Tracked(s: State)
  {
    forall d | d in s.db.deployments ::
      if d in s.history.latest then s.history.latest[d] in s.db.tasks
      else s.db.deployments[d].status == PENDING || s.db.deployments[d].status == DELETING
  }

  ghost predicate SoloInv(cfg: Config, s: State)
  {
    && Inv(cfg, s)
    && Alone(s)
    && LatestFits(s)
    && Tracked(s)
    && ClaimsInOrder(s)
    && HoldsLatest(s)
    && SecretsForImages(s)
    && Owned(s.cluster, s.history)
    && AllPlaced(s)
  }

  // ---- workers and claims -----------------------------------------------------------

  lemma KeepsAlone(cfg: Config, s: State, e: Event)
    requires Enabled(s, e) && InTurn(s, e) && Alone(s)
    ensures Alone(Apply(cfg, s, e))
  {
  }

  lemma KeepsLatestFits(cfg: Config, s: State, e: Event)
    requires Enabled(s, e) && Inv(cfg, s) && LatestFits(s)
    ensures LatestFits(Apply(cfg, s, e))
  {
    var n := Apply(cfg, s, e);
    forall d | d in n.history.latest
      ensures d in n.history.born && n.history.latest[d] < n.db.nextTask
      ensures n.history.latest[d] in n.db.tasks ==> n.db.tasks[n.history.latest[d]].deployment == d
    {
      if e.Claim? {
        assert s.db.tasks[e.task].deployment in s.db.deployments;
      } else {
        BornStays(cfg, s, e);
        TaskFits(cfg, s, e, d);
      }
    }
  }

  lemma TaskFits(cfg: Config, s: State, e: Event, d: Id)
    requires Enabled(s, e) && !e.Claim? && LatestFits(s) && d in s.history.latest
    ensures var n := Apply(cfg, s, e);
      n.history.latest == s.history.latest && s.db.nextTask <= n.db.nextTask
      && (s.history.latest[d] in n.db.tasks ==> n.db.tasks[s.history.latest[d]].deployment == d)
  {
  }

  lemma KeepsTracked(cfg: Config, s: State, e: Event)
    requires Enabled(s, e) && LatestFits(s) && HoldsLatest(s) && Tracked(s)
    ensures Tracked(Apply(cfg, s, e))
  {
    var n := Apply(cfg, s, e);
    forall d | d in n.db.deployments
      ensures if d in n.history.latest then n.history.latest[d] in n.db.tasks
              else n.db.deployments[d].status == PENDING || n.db.deployments[d].status == DELETING
    {
      RowAfter(cfg, s, e, d);
      if d in n.history.latest {
        LatestTaskStays(cfg, s, e, d);
      } else if e.Call? {
        CallWrites(cfg, s, e, d);
        assert LatestIs(s.history, s.workers[e.w].pc.job);
      } else {
        StillUnclaimed(cfg, s, e, d);
      }
    }
  }

  lemma StillUnclaimed(cfg: Config, s: State, e: Event, d: Id)
    requires Enabled(s, e) && d !in Apply(cfg, s, e).history.latest
    ensures d !in s.history.latest
  {
  }

  lemma LatestTaskStays(cfg: Config, s: State, e: Event, d: Id)
    requires Enabled(s, e) && LatestFits(s) && Tracked(s)
    requires d in Apply(cfg, s, e).db.deployments && d in Apply(cfg, s, e).history.latest
    ensures Apply(cfg, s, e).history.latest[d] in Apply(cfg, s, e).db.tasks
  {
    RowAfter(cfg, s, e, d);
  }

  lemma KeepsHoldsLatest(cfg: Config, s: State, e: Event)
    requires Enabled(s, e) && InTurn(s, e) && Alone(s) && HoldsLatest(s)
    ensures HoldsLatest(Apply(cfg, s, e))
  {
    var n := Apply(cfg, s, e);
    forall w | w in n.workers && n.workers[w].pc.HasJob()
      ensures LatestIs(n.history, n.workers[w].pc.job)
    {
      if e.Claim? {
        assert w == e.w;
      } else {
        assert w in s.workers && LatestIs(s.history, s.workers[w].pc.job);
      }
    }
  }

  /** The only worker sees every lock there is: none. */
  lemma NoLocks(s: State, w: WorkerId, locked: set<TaskId>)
    requires Alone(s) && w in s.workers && CanLock(s, w, locked)
    ensures locked == {}
  {
  }

  lemma ClaimKeepsOrder(cfg: Config, s: State, e: Event)
    requires e.Claim? && Enabled(s, e) && Alone(s) && ClaimsInOrder(s)
    ensures ClaimsInOrder(Apply(cfg, s, e))
  {
    NoLocks(s, e.w, e.locked);
    var n := Apply(cfg, s, e);
    forall t | t in n.db.tasks && n.db.tasks[t].status != TASK_PENDING
      ensures NotAfterLatest(n, t)
    {
      assert t != e.task ==> NotAfterLatest(s, t);
    }
  }

  /** Other events claim nothing: the claimed tasks and the last claims stay. */
  lemma OtherKeepsOrder(cfg: Config, s: State, e: Event)
    requires !e.Claim? && Enabled(s, e) && InTurn(s, e) && TaskInv(s) && TasksHaveRows(s.db) && LatestFits(s) && ClaimsInOrder(s)
    ensures ClaimsInOrder(Apply(cfg, s, e))
  {
    var n := Apply(cfg, s, e);
    forall t | t in n.db.tasks
      ensures KeptOrNew(s.db, n.db, t)
    {
      TaskAfter(cfg, s, e, t);
    }
    OrderOfKept(s.db, n.db);
    forall t | t in n.db.tasks && n.db.tasks[t].status != TASK_PENDING
      ensures NotAfterLatest(n, t)
    {
      LatestAfter(cfg, s, e, t);
    }
  }

  /** A task was there with the same times, or is pending and not dated before any other. */
  ghost predicate KeptOrNew(db: Database, next: Database, t: TaskId)
    requires t in next.tasks
  {
    if t in db.tasks then SameTimes(db.tasks[t], next.tasks[t])
    else next.tasks[t].status == TASK_PENDING && forall u | u in db.tasks :: db.tasks[u].createdAt <= next.tasks[t].createdAt
  }

  ghost predicate ClaimedFirst(db: Database)
  {
    forall t, u | t in db.tasks && u in db.tasks && db.tasks[t].status != TASK_PENDING && IsPending(db, u) ::
      db.tasks[t].createdAt <= db.tasks[u].createdAt
  }

  lemma OrderOfKept(db: Database, next: Database)
    requires ClaimedFirst(db) && forall t | t in next.tasks :: KeptOrNew(db, next, t)
    ensures ClaimedFirst(next)
  {
    forall t, u | t in next.tasks && u in next.tasks && next.tasks[t].status != TASK_PENDING && IsPending(next, u)
      ensures next.tasks[t].createdAt <= next.tasks[u].createdAt
    {
      assert KeptOrNew(db, next, t) && KeptOrNew(db, next, u);
    }
  }

  lemma LatestAfter(cfg: Config, s: State, e: Event, t: TaskId)
    requires !e.Claim? && Enabled(s, e) && TaskInv(s) && TasksHaveRows(s.db) && LatestFits(s) && ClaimsInOrder(s)
    requires t in Apply(cfg, s, e).db.tasks && KeptOrNew(s.db, Apply(cfg, s, e).db, t)
    requires forall u | u in Apply(cfg, s, e).db.tasks :: KeptOrNew(s.db, Apply(cfg, s, e).db, u)
    requires Apply(cfg, s, e).db.tasks[t].status != TASK_PENDING
    ensures NotAfterLatest(Apply(cfg, s, e), t)
  {
    assert NotAfterLatest(s, t);
    LatestStays(cfg, s, e, t);
    assert KeptOrNew(s.db, Apply(cfg, s, e).db, s.history.latest[s.db.tasks[t].deployment]);
  }

  predicate SameTimes(a: Task, b: Task)
  {
    a.deployment == b.deployment && a.createdAt == b.createdAt && (a.status == TASK_PENDING <==> b.status == TASK_PENDING)
  }

  lemma TaskAfter(cfg: Config, s: State, e: Event, t: TaskId)
    requires !e.Claim? && Enabled(s, e) && InTurn(s, e) && TaskInv(s) && t in Apply(cfg, s, e).db.tasks
    ensures t in s.db.tasks ==> SameTimes(s.db.tasks[t], Apply(cfg, s, e).db.tasks[t])
    ensures t !in s.db.tasks ==> Apply(cfg, s, e).db.tasks[t].status == TASK_PENDING
    ensures t !in s.db.tasks ==> forall u | u in s.db.tasks :: s.db.tasks[u].createdAt <= Apply(cfg, s, e).db.tasks[t].createdAt
  {
    if e.Call? {
      assert Holds(s.db, s.history.claims, s.workers[e.w].pc);
    }
  }

  lemma LatestStays(cfg: Config, s: State, e: Event, t: TaskId)
    requires !e.Claim? && Enabled(s, e) && t in s.db.tasks && t in Apply(cfg, s, e).db.tasks && NotAfterLatest(s, t)
    ensures Apply(cfg, s, e).history.latest == s.history.latest
    ensures s.history.latest[s.db.tasks[t].deployment] in Apply(cfg, s, e).db.tasks
  {
  }

  // ---- the cluster keeps its owners -------------------------------------------------

  /** One kind of objects after a put, a removal, or neither. */
  function Objects(m: map<string, Id>, name: string, id: Id, apply: bool, drop: bool): map<string, Id>
  {
    if apply then m[name := id] else if drop then m - {name} else m
  }

  lemma ClusterIs(c: Cluster, p: Pc, id: Id, name: string, secret: string)
    requires p.Running? && id == p.job.deployment && name == WorkloadName(p.spec.birth.slug, id) && secret == PullSecretName(id)
    ensures ClusterAfter(c, p) ==
      Cluster(Objects(c.workloads, name, id, p.call == ApplyDeployment, p.call == DropDeployment),
              Objects(c.services, name, id, p.call == ApplyService, p.call == DropService),
              Objects(c.secrets, secret, id, p.call == ApplySecret, p.call == DropSecret))
  {
  }

  lemma CallKeepsOwned(c: Cluster, h: History, p: Pc)
    requires Owned(c, h) && p.HasJob() && p.job.deployment in h.latest && p.job.deployment in h.born
    requires p.Running? ==> p.spec.birth == h.born[p.job.deployment]
    requires p.Running? && p.call == ApplySecret ==> p.spec.birth.image
    ensures Owned(ClusterAfter(c, p), h)
  {
    if p.Running? {
      var id, name := p.job.deployment, WorkloadName(p.spec.birth.slug, p.job.deployment);
      ClusterIs(c, p, id, name, PullSecretName(id));
      ObjectsKeepOwners(c.workloads, h, name, id, p.call == ApplyDeployment, p.call == DropDeployment);
      ObjectsKeepOwners(c.services, h, name, id, p.call == ApplyService, p.call == DropService);
      SecretsKeepOwners(c.secrets, h, PullSecretName(id), id, p.call == ApplySecret, p.call == DropSecret);
    }
  }

  lemma ObjectsKeepOwners(m: map<string, Id>, h: History, name: string, id: Id, apply: bool, drop: bool)
    requires OwnNames(m, h) && OwnName(h, name, id)
    ensures OwnNames(Objects(m, name, id, apply, drop), h)
  {
  }

  lemma SecretsKeepOwners(m: map<string, Id>, h: History, name: string, id: Id, apply: bool, drop: bool)
    requires OwnSecrets(m, h) && (apply ==> OwnSecret(h, name, id))
    ensures OwnSecrets(Objects(m, name, id, apply, drop), h)
  {
  }

  /** Secrets are applied for images only. */
  ghost predicate SecretsForImages(s: State)
  {
    forall w | w in s.workers && s.workers[w].pc.Running? && s.workers[w].pc.call == ApplySecret :: s.workers[w].pc.spec.birth.image
  }

  lemma KeepsSecretsForImages(cfg: Config, s: State, e: Event)
    requires Enabled(s, e) && SecretsForImages(s)
    ensures SecretsForImages(Apply(cfg, s, e))
  {
  }

  lemma OwnedByMore(c: Cluster, h: History, more: History)
    requires Owned(c, h)
    requires forall d | d in h.born :: d in more.born && more.born[d] == h.born[d]
    requires forall d | d in h.latest :: d in more.latest
    ensures Owned(c, more)
  {
  }

  lemma KeepsOwned(cfg: Config, s: State, e: Event)
    requires Enabled(s, e) && Inv(cfg, s) && HoldsLatest(s) && SecretsForImages(s) && Owned(s.cluster, s.history)
    ensures Owned(Apply(cfg, s, e).cluster, Apply(cfg, s, e).history)
  {
    if e.Call? {
      assert JobFits(s.db, s.history.born, s.workers[e.w].pc);
      CallKeepsOwned(s.cluster, s.history, s.workers[e.w].pc);
    } else {
      BornStays(cfg, s, e);
      OwnedByMore(s.cluster, s.history, Apply(cfg, s, e).history);
    }
  }
}
