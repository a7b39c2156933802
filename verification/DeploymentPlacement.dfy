/** The part of the one-worker invariant that ties a deployment's status to its cluster objects. */
module DeploymentPlacement {
  import opened OrderedDict
  import opened KubernetesNames
  import opened Deployments
  import opened DeploymentSafety
  import opened DeploymentRows
  import opened DeploymentSettling

  // ---- what does not concern a deployment -------------------------------------------

  ghost predicate SameRow(db: Database, next: Database, d: Id)
  {
    && d in db.deployments && d in next.deployments && next.deployments[d] == db.deployments[d]
    && (Requested(db, d) ==> Requested(next, d))
  }

  predicate SameAt(m: map<string, Id>, n: map<string, Id>, name: string)
  {
    if name in m then name in n && n[name] == m[name] else name !in n
  }

  predicate SameObjects(c: Cluster, next: Cluster, name: string, secret: string)
  {
    SameAt(c.workloads, next.workloads, name) && SameAt(c.services, next.services, name) && SameAt(c.secrets, next.secrets, secret)
  }

  predicate SameFor(c: Cluster, next: Cluster, slug: string, d: Id)
  {
    SameObjects(c, next, WorkloadName(slug, d), PullSecretName(d))
  }

  lemma UnderwayStays(db: Database, next: Database, c: Cluster, nc: Cluster, d: Id, p: Pc)
    requires SameRow(db, next, d) && SameFor(c, nc, db.deployments[d].birth.slug, d)
    requires p.HasJob() && Underway(db, c, d, p)
    ensures Underway(next, nc, d, p)
  {
  }

  lemma LeftStays(db: Database, next: Database, c: Cluster, nc: Cluster, d: Id, t: TaskId)
    requires SameRow(db, next, d) && SameFor(c, nc, db.deployments[d].birth.slug, d)
    requires t in next.tasks ==> t in db.tasks && next.tasks[t] == db.tasks[t]
    requires Left(db, c, d, t)
    ensures Left(next, nc, d, t)
  {
  }

  ghost predicate Unheld(s: State, d: Id)
  {
    forall w | w in s.workers :: !HeldBy(s, d, w)
  }

  /** Nobody's work for the deployment changed. */
  ghost predicate SameWork(s: State, n: State, d: Id)
  {
    && (forall w | HeldBy(n, d, w) :: HeldBy(s, d, w) && n.workers[w].pc == s.workers[w].pc)
    && (Unheld(n, d) && d in n.history.latest ==>
          Unheld(s, d) && d in s.history.latest && n.history.latest[d] == s.history.latest[d]
          && var t := s.history.latest[d]; t in n.db.tasks ==> t in s.db.tasks && n.db.tasks[t] == s.db.tasks[t])
  }

  lemma PlacedStays(s: State, n: State, d: Id)
    requires d in s.db.deployments && Placed(s, d) && SameRow(s.db, n.db, d) && SameWork(s, n, d)
    requires SameFor(s.cluster, n.cluster, s.db.deployments[d].birth.slug, d)
    ensures Placed(n, d)
  {
    forall w | HeldBy(n, d, w)
      ensures Underway(n.db, n.cluster, d, n.workers[w].pc)
    {
      UnderwayStays(s.db, n.db, s.cluster, n.cluster, d, s.workers[w].pc);
    }
    if Unheld(n, d) && d in n.history.latest {
      LeftStays(s.db, n.db, s.cluster, n.cluster, d, s.history.latest[d]);
    }
  }

  // ---- events that are not calls ----------------------------------------------------

  predicate Quiet(e: Event) { !e.Call? && !e.Claim? && !e.Crash? }

  /** No quiet event changes what workers hold. */
  lemma QuietWork(cfg: Config, s: State, e: Event, d: Id)
    requires Enabled(s, e) && InTurn(s, e) && Quiet(e) && LatestFits(s)
    requires e.Purge? ==> e.id != d
    ensures SameWork(s, Apply(cfg, s, e), d)
    ensures Apply(cfg, s, e).cluster == s.cluster
  {
    var n := Apply(cfg, s, e);
    forall w | w in s.workers
      ensures w in n.workers && (HeldBy(s, d, w) <==> HeldBy(n, d, w))
      ensures HeldBy(s, d, w) ==> n.workers[w].pc == s.workers[w].pc
    {
    }
    assert n.history.latest == s.history.latest;
    if d in s.history.latest {
      QuietTask(cfg, s, e, s.history.latest[d]);
    }
  }

  lemma QuietTask(cfg: Config, s: State, e: Event, t: TaskId)
    requires Enabled(s, e) && Quiet(e) && t < s.db.nextTask
    ensures t in Apply(cfg, s, e).db.tasks ==> t in s.db.tasks && Apply(cfg, s, e).db.tasks[t] == s.db.tasks[t]
  {
  }

  lemma QuietRow(cfg: Config, s: State, e: Event, d: Id)
    requires Enabled(s, e) && Quiet(e) && TaskInv(s) && d in s.db.deployments && RowsBorn(s.db, s.history.born)
    requires e.Create? || e.RequestDelete? || e.Purge? ==> e.id != d
    ensures SameRow(s.db, Apply(cfg, s, e).db, d)
  {
    if Requested(s.db, d) {
      var t :| t in s.db.tasks && s.db.tasks[t] == Task(d, DELETE, TASK_PENDING, s.db.tasks[t].createdAt);
      assert t < s.db.nextTask;
      var n := Apply(cfg, s, e).db;
      assert t in n.tasks && n.tasks[t] == s.db.tasks[t];
    }
  }

  lemma NobodyYet(s: State, d: Id)
    requires HoldsLatest(s) && d !in s.history.latest
    ensures Unheld(s, d)
  {
    forall w | w in s.workers && s.workers[w].pc.HasJob()
      ensures s.workers[w].pc.job.deployment != d
    {
      assert LatestIs(s.history, s.workers[w].pc.job);
    }
  }

  lemma CreatePlaced(cfg: Config, s: State, e: Event)
    requires e.Create? && Enabled(s, e) && LatestFits(s) && HoldsLatest(s)
    ensures Placed(Apply(cfg, s, e), e.id)
  {
    var n := Apply(cfg, s, e);
    assert e.id !in s.history.latest;
    NobodyYet(s, e.id);
    assert forall w | w in n.workers :: w in s.workers && n.workers[w].pc == s.workers[w].pc;
    assert Unheld(n, e.id);
  }

  /** A delete request that is taken up: the row says DELETING and the task is there. */
  lemma RequestIsMade(cfg: Config, s: State, e: Event)
    requires e.RequestDelete? && Enabled(s, e) && s.db.deployments[e.id].status != DELETED
    ensures var n := Apply(cfg, s, e);
      e.id in n.db.deployments && n.db.deployments[e.id] == s.db.deployments[e.id].(status := DELETING) && Requested(n.db, e.id)
  {
    var n := Apply(cfg, s, e);
    assert n.db.tasks[s.db.nextTask] == Task(e.id, DELETE, TASK_PENDING, e.at);
  }

  lemma RequestUnderway(db: Database, next: Database, c: Cluster, d: Id, p: Pc)
    requires d in db.deployments && d in next.deployments && p.HasJob() && Underway(db, c, d, p)
    requires next.deployments[d] == db.deployments[d].(status := DELETING) && Requested(next, d)
    ensures Underway(next, c, d, p)
  {
  }

  lemma RequestLeft(db: Database, next: Database, c: Cluster, d: Id, t: TaskId)
    requires d in db.deployments && d in next.deployments && Left(db, c, d, t)
    requires next.deployments[d] == db.deployments[d].(status := DELETING) && Requested(next, d)
    requires t in next.tasks ==> t in db.tasks && next.tasks[t] == db.tasks[t]
    ensures Left(next, c, d, t)
  {
  }

  lemma RequestPlaced(cfg: Config, s: State, e: Event)
    requires e.RequestDelete? && Enabled(s, e) && InTurn(s, e) && s.db.deployments[e.id].status != DELETED
    requires LatestFits(s) && Placed(s, e.id)
    ensures Placed(Apply(cfg, s, e), e.id)
  {
    var n, d := Apply(cfg, s, e), e.id;
    QuietWork(cfg, s, e, d);
    RequestIsMade(cfg, s, e);
    forall w | HeldBy(n, d, w)
      ensures Underway(n.db, n.cluster, d, n.workers[w].pc)
    {
      RequestUnderway(s.db, n.db, s.cluster, d, s.workers[w].pc);
    }
    if Unheld(n, d) && d in n.history.latest {
      RequestLeft(s.db, n.db, s.cluster, d, s.history.latest[d]);
    }
  }

  lemma QuietPlaced(cfg: Config, s: State, e: Event, d: Id)
    requires Enabled(s, e) && InTurn(s, e) && SoloInv(cfg, s) && Quiet(e) && d in Apply(cfg, s, e).db.deployments
    ensures Placed(Apply(cfg, s, e), d)
  {
    RowAfter(cfg, s, e, d);
    if e.Create? && d == e.id {
      CreatePlaced(cfg, s, e);
    } else {
      assert Placed(s, d);
      if e.RequestDelete? && d == e.id && s.db.deployments[d].status != DELETED {
        RequestPlaced(cfg, s, e);
      } else {
        if !(e.RequestDelete? && d == e.id) {
          QuietRow(cfg, s, e, d);
        }
        QuietWork(cfg, s, e, d);
        PlacedStays(s, Apply(cfg, s, e), d);
      }
    }
  }

  // ---- crashes and claims -----------------------------------------------------------

  /** A crash leaves the task of the worker in progress, and nothing is claimed about that. */
  lemma CrashPlaced(cfg: Config, s: State, e: Event, d: Id)
    requires e.Crash? && Enabled(s, e) && SoloInv(cfg, s) && d in s.db.deployments
    ensures Placed(Apply(cfg, s, e), d)
  {
    var n := Apply(cfg, s, e);
    assert Placed(s, d);
    assert n.workers == map[];
    if HeldBy(s, d, e.w) {
      var p := s.workers[e.w].pc;
      assert Holds(s.db, s.history.claims, p) && LatestIs(s.history, p.job);
    } else {
      assert Unheld(s, d);
    }
  }

  lemma ClaimPlaced(cfg: Config, s: State, e: Event, d: Id)
    requires e.Claim? && Enabled(s, e) && SoloInv(cfg, s) && d in s.db.deployments
    ensures Placed(Apply(cfg, s, e), d)
  {
    assert Placed(s, d);
    if s.db.tasks[e.task].deployment == d {
      ClaimHere(cfg, s, e, d);
    } else {
      ClaimElsewhere(cfg, s, e, d);
      PlacedStays(s, Apply(cfg, s, e), d);
    }
  }

  lemma ClaimHere(cfg: Config, s: State, e: Event, d: Id)
    requires e.Claim? && Enabled(s, e) && Alone(s) && d in s.db.deployments && s.db.tasks[e.task].deployment == d
    requires ActiveIsPresent(s.db, s.cluster, d)
    ensures Placed(Apply(cfg, s, e), d)
  {
    var n := Apply(cfg, s, e);
    assert forall w | w in n.workers :: w == e.w;
    assert HeldBy(n, d, e.w) && n.workers[e.w].pc.Fetching?;
  }

  lemma ClaimElsewhere(cfg: Config, s: State, e: Event, d: Id)
    requires e.Claim? && Enabled(s, e) && Alone(s) && LatestFits(s) && d in s.db.deployments && s.db.tasks[e.task].deployment != d
    ensures SameRow(s.db, Apply(cfg, s, e).db, d) && SameWork(s, Apply(cfg, s, e), d)
  {
    var n := Apply(cfg, s, e);
    assert forall w | w in s.workers :: w == e.w;
    if Requested(s.db, d) {
      var t :| t in s.db.tasks && s.db.tasks[t] == Task(d, DELETE, TASK_PENDING, s.db.tasks[t].createdAt);
      assert n.db.tasks[t] == s.db.tasks[t];
    }
  }

  // ---- calls for another deployment -------------------------------------------------

  lemma ObjectsElsewhere(m: map<string, Id>, name: string, id: Id, apply: bool, drop: bool, other: string)
    requires name != other
    ensures SameAt(m, Objects(m, name, id, apply, drop), other)
  {
  }

  lemma ClusterElsewhere(c: Cluster, p: Pc, name: string, secret: string)
    requires p.Running? ==> WorkloadName(p.spec.birth.slug, p.job.deployment) != name && PullSecretName(p.job.deployment) != secret
    ensures SameObjects(c, ClusterAfter(c, p), name, secret)
  {
    if p.Running? {
      var id, own, pull := p.job.deployment, WorkloadName(p.spec.birth.slug, p.job.deployment), PullSecretName(p.job.deployment);
      ClusterIs(c, p, id, own, pull);
      ObjectsElsewhere(c.workloads, own, id, p.call == ApplyDeployment, p.call == DropDeployment, name);
      ObjectsElsewhere(c.services, own, id, p.call == ApplyService, p.call == DropService, name);
      ObjectsElsewhere(c.secrets, pull, id, p.call == ApplySecret, p.call == DropSecret, secret);
    }
  }

  lemma NamesDiffer(born: map<Id, Birth>, p: Pc, d: Id)
    requires NamesApart(born) && d in born && p.Running? && p.job.deployment in born && p.job.deployment != d
    requires p.spec.birth == born[p.job.deployment]
    ensures WorkloadName(p.spec.birth.slug, p.job.deployment) != WorkloadName(born[d].slug, d)
    ensures PullSecretName(p.job.deployment) != PullSecretName(d)
  {
  }

  lemma CallSameFor(cfg: Config, s: State, e: Event, d: Id)
    requires e.Call? && Enabled(s, e) && RowInv(cfg, s) && NamesApart(s.history.born)
    requires d in s.db.deployments && s.workers[e.w].pc.job.deployment != d
    ensures SameFor(s.cluster, Apply(cfg, s, e).cluster, s.db.deployments[d].birth.slug, d)
  {
    var p := s.workers[e.w].pc;
    assert JobFits(s.db, s.history.born, p);
    if p.Running? {
      NamesDiffer(s.history.born, p, d);
    }
    ClusterElsewhere(s.cluster, p, WorkloadName(s.db.deployments[d].birth.slug, d), PullSecretName(d));
  }

  /** A call for another deployment leaves this one's rows and tasks alone. */
  lemma CallSameRow(cfg: Config, s: State, e: Event, d: Id)
    requires e.Call? && Enabled(s, e) && TaskInv(s) && d in s.db.deployments && s.workers[e.w].pc.job.deployment != d
    ensures SameRow(s.db, Apply(cfg, s, e).db, d)
  {
    if Requested(s.db, d) {
      var t :| t in s.db.tasks && s.db.tasks[t] == Task(d, DELETE, TASK_PENDING, s.db.tasks[t].createdAt);
      CallKeepsTaskOf(cfg, s, e, t, d);
    }
  }

  lemma CallKeepsTaskOf(cfg: Config, s: State, e: Event, t: TaskId, d: Id)
    requires e.Call? && Enabled(s, e) && TaskInv(s) && t in s.db.tasks && s.db.tasks[t].deployment == d
    requires s.workers[e.w].pc.job.deployment != d
    ensures t in Apply(cfg, s, e).db.tasks && Apply(cfg, s, e).db.tasks[t] == s.db.tasks[t]
  {
    assert Holds(s.db, s.history.claims, s.workers[e.w].pc);
    CallLeavesTask(cfg, s, e, t);
  }

  lemma CallSameWork(cfg: Config, s: State, e: Event, d: Id)
    requires e.Call? && Enabled(s, e) && TaskInv(s) && Alone(s) && LatestFits(s) && s.workers[e.w].pc.job.deployment != d
    ensures SameWork(s, Apply(cfg, s, e), d)
  {
    var n := Apply(cfg, s, e);
    assert forall w | w in s.workers :: w == e.w;
    assert n.workers.Keys == s.workers.Keys;
    assert n.workers[e.w].pc.HasJob() ==> n.workers[e.w].pc.job == s.workers[e.w].pc.job;
    assert n.history == s.history;
    if d in s.history.latest {
      var t := s.history.latest[d];
      SameKeys(cfg, s.db, s.workers[e.w].pc);
      if t in s.db.tasks {
        CallKeepsTaskOf(cfg, s, e, t, d);
      }
    }
  }

  // ---- calls for the deployment itself ----------------------------------------------

  /** Tasks still to be claimed are not touched by a call. */
  lemma CallKeepsRequested(cfg: Config, s: State, e: Event, d: Id)
    requires e.Call? && Enabled(s, e) && TaskInv(s) && Requested(s.db, d)
    ensures Requested(Apply(cfg, s, e).db, d)
  {
    var t :| t in s.db.tasks && s.db.tasks[t] == Task(d, DELETE, TASK_PENDING, s.db.tasks[t].createdAt);
    var p := s.workers[e.w].pc;
    assert Holds(s.db, s.history.claims, p);
    if p.job.task != t {
      CallLeavesTask(cfg, s, e, t);
    }
  }

  /** Only the calls of a deletion make the cluster lose an object of the deployment, and none of
      them is made while the row says ACTIVE. */
  lemma LateRaisePlaced(cfg: Config, s: State, e: Event, d: Id)
    requires e.Call? && Enabled(s, e) && !e.outcome.Returns? && Alone(s) && d in s.db.deployments && Placed(s, d)
    requires s.workers[e.w].pc.job.deployment == d
    ensures Placed(Apply(cfg, s, e), d)
  {
    var n, p := Apply(cfg, s, e), s.workers[e.w].pc;
    assert HeldBy(s, d, e.w) && Underway(s.db, s.cluster, d, p);
    assert HeldBy(n, d, e.w) && forall w | w in n.workers :: w == e.w;
    assert n.workers[e.w].pc == Failing(p.job);
  }

  /** A call that returned, for a deployment that is still there: how its row and the cluster are. */
  lemma NextUnderway(db: Database, next: Database, c: Cluster, d: Id, p: Pc, q: Pc)
    requires d in db.deployments && d in next.deployments && p.Running? && p.job.deployment == d && p.call != MarkCompleted
    requires q == p.(call := NextCall(p.spec, p.call))
    requires p.spec.birth == db.deployments[d].birth == next.deployments[d].birth
    requires Underway(db, c, d, p) && (Requested(db, d) ==> Requested(next, d))
    requires next.deployments[d].status ==
      if p.call == MarkDeploying then DEPLOYING else if p.call == MarkActive then ACTIVE
      else if p.call == MarkDeleting then DELETING else if p.call == MarkDeleted then DELETED
      else db.deployments[d].status
    requires (DeployCall(p.call) ==> p.job.kind == DEPLOY) && (DeleteCall(p.call) ==> p.job.kind == DELETE)
    requires p.call == DropService && !p.spec.birth.image ==> PullSecretName(d) !in c.secrets
    ensures Underway(next, ClusterAfter(c, p), d, q)
  {
    ClusterIs(c, p, d, WorkloadName(p.spec.birth.slug, d), PullSecretName(d));
  }

  /** The worker's call for this deployment returned. */
  ghost predicate Acts(s: State, e: Event, d: Id, p: Pc)
  {
    && e.Call? && CanCall(s, e.w, e.outcome) && e.outcome.Returns?
    && d in s.db.deployments && p == s.workers[e.w].pc && p.job.deployment == d
  }

  lemma ActiveFromUnderway(db: Database, c: Cluster, d: Id, q: Pc)
    requires d in db.deployments && q.Running? && q.call != MarkDeploying && q.call != MarkDeleting && Underway(db, c, d, q)
    ensures ActiveIsPresent(db, c, d)
  {
  }

  /** A file deployment never has a secret. */
  lemma NoSecret(c: Cluster, h: History, d: Id)
    requires Owned(c, h) && NamesApart(h.born) && d in h.born && !h.born[d].image
    ensures PullSecretName(d) !in c.secrets
  {
  }

  /** What the row and the worker are after such a call. */
  lemma RunningStep(cfg: Config, s: State, e: Event, d: Id, p: Pc)
    requires Acts(s, e, d, p) && Inv(cfg, s) && p.Running? && p.call != MarkCompleted
    ensures var n := Apply(cfg, s, e);
      && n.workers.Keys == s.workers.Keys && n.workers[e.w].pc == p.(call := NextCall(p.spec, p.call))
      && n.cluster == ClusterAfter(s.cluster, p)
      && (Requested(s.db, d) ==> Requested(n.db, d))
  {
    if Requested(s.db, d) {
      CallKeepsRequested(cfg, s, e, d);
    }
  }

  lemma RunningPlaced(cfg: Config, s: State, e: Event, d: Id, p: Pc)
    requires Acts(s, e, d, p) && SoloInv(cfg, s) && NamesApart(s.history.born) && p.Running? && p.call != MarkCompleted
    ensures d in Apply(cfg, s, e).db.deployments && Placed(Apply(cfg, s, e), d)
  {
    var n := Apply(cfg, s, e);
    var q := p.(call := NextCall(p.spec, p.call));
    assert Placed(s, d) && HeldBy(s, d, e.w) && Underway(s.db, s.cluster, d, p);
    assert JobFits(s.db, s.history.born, p);
    CallWrites(cfg, s, e, d);
    RowAfter(cfg, s, e, d);
    RunningStep(cfg, s, e, d, p);
    if !p.spec.birth.image {
      NoSecret(s.cluster, s.history, d);
    }
    NextUnderway(s.db, n.db, s.cluster, d, p, q);
    NotFirst(p.spec, p.call);
    ActiveFromUnderway(n.db, n.cluster, d, q);
    HeldAfter(s, n, e.w, d);
  }

  lemma NotFirst(spec: Spec, call: Call)
    requires call != MarkCompleted
    ensures NextCall(spec, call) != MarkDeploying && NextCall(spec, call) != MarkDeleting
  {
  }

  lemma HeldAfter(s: State, n: State, w: WorkerId, d: Id)
    requires Alone(s) && w in s.workers && n.workers.Keys == s.workers.Keys && d in n.db.deployments
    requires n.workers[w].pc.HasJob() && n.workers[w].pc.job.deployment == d
    requires Underway(n.db, n.cluster, d, n.workers[w].pc) && ActiveIsPresent(n.db, n.cluster, d)
    ensures Placed(n, d)
  {
    assert HeldBy(n, d, w) && forall v | v in n.workers :: v == w;
  }

  lemma FetchPlaced(cfg: Config, s: State, e: Event, d: Id, p: Pc)
    requires Acts(s, e, d, p) && SoloInv(cfg, s) && p.Fetching?
    ensures d in Apply(cfg, s, e).db.deployments && Placed(Apply(cfg, s, e), d)
  {
    var n := Apply(cfg, s, e);
    assert Placed(s, d);
    assert n.db == s.db && n.cluster == s.cluster;
    HeldAfter(s, n, e.w, d);
  }

  lemma FailingPlaced(cfg: Config, s: State, e: Event, d: Id, p: Pc)
    requires Acts(s, e, d, p) && SoloInv(cfg, s) && p.Failing?
    ensures d in Apply(cfg, s, e).db.deployments && Placed(Apply(cfg, s, e), d)
  {
    var n := Apply(cfg, s, e);
    CallWrites(cfg, s, e, d);
    HeldAfter(s, n, e.w, d);
  }

  /** The last call of a job: the task is finished, and the row and the cluster are as it left them. */
  lemma LastPlaced(cfg: Config, s: State, e: Event, d: Id, p: Pc)
    requires Acts(s, e, d, p) && SoloInv(cfg, s) && LastCall(p)
    ensures d in Apply(cfg, s, e).db.deployments && Placed(Apply(cfg, s, e), d)
  {
    var n := Apply(cfg, s, e);
    assert Placed(s, d) && HeldBy(s, d, e.w) && Underway(s.db, s.cluster, d, p);
    assert Holds(s.db, s.history.claims, p) && JobFits(s.db, s.history.born, p) && LatestIs(s.history, p.job);
    if Requested(s.db, d) {
      CallKeepsRequested(cfg, s, e, d);
    }
    LastStep(cfg, s, e);
    assert forall v | v in n.workers :: v == e.w;
    LeftBehind(s.db, n.db, s.cluster, d, p);
  }

  lemma LeftBehind(db: Database, next: Database, c: Cluster, d: Id, p: Pc)
    requires d in db.deployments && next.deployments == db.deployments && LastCall(p) && Underway(db, c, d, p)
    requires Requested(db, d) ==> Requested(next, d)
    requires p.job.task in db.tasks && db.tasks[p.job.task].kind == p.job.kind
    requires next.tasks == SetTask(db, p.job.task, if p.Recording? then TASK_FAILED else COMPLETED).tasks
    ensures Left(next, c, d, p.job.task)
    ensures ActiveIsPresent(db, c, d) ==> ActiveIsPresent(next, c, d)
  {
  }

  lemma LastStep(cfg: Config, s: State, e: Event)
    requires e.Call? && Enabled(s, e) && e.outcome.Returns? && LastCall(s.workers[e.w].pc)
    ensures var n, p := Apply(cfg, s, e), s.workers[e.w].pc;
      && n.db.deployments == s.db.deployments && n.cluster == s.cluster && n.history == s.history
      && n.workers.Keys == s.workers.Keys && n.workers[e.w].pc == Draining
      && n.db.tasks == SetTask(s.db, p.job.task, if p.Recording? then TASK_FAILED else COMPLETED).tasks
  {
  }

  lemma CallPlaced(cfg: Config, s: State, e: Event, d: Id)
    requires e.Call? && Enabled(s, e) && SoloInv(cfg, s) && NamesApart(s.history.born) && d in s.db.deployments
    ensures d in Apply(cfg, s, e).db.deployments && Placed(Apply(cfg, s, e), d)
  {
    var p := s.workers[e.w].pc;
    CallWrites(cfg, s, e, d);
    assert Placed(s, d);
    if p.job.deployment != d {
      CallSameFor(cfg, s, e, d);
      CallSameRow(cfg, s, e, d);
      CallSameWork(cfg, s, e, d);
      PlacedStays(s, Apply(cfg, s, e), d);
    } else if !e.outcome.Returns? {
      LateRaisePlaced(cfg, s, e, d);
    } else if LastCall(p) {
      LastPlaced(cfg, s, e, d, p);
    } else if p.Fetching? {
      FetchPlaced(cfg, s, e, d, p);
    } else if p.Failing? {
      FailingPlaced(cfg, s, e, d, p);
    } else {
      RunningPlaced(cfg, s, e, d, p);
    }
  }

  // ---- every run --------------------------------------------------------------------

  lemma KeepsPlaced(cfg: Config, s: State, e: Event, d: Id)
    requires Enabled(s, e) && InTurn(s, e) && SoloInv(cfg, s) && NamesApart(s.history.born)
    requires d in Apply(cfg, s, e).db.deployments
    ensures Placed(Apply(cfg, s, e), d)
  {
    if Quiet(e) {
      QuietPlaced(cfg, s, e, d);
    } else {
      RowAfter(cfg, s, e, d);
      if e.Call? {
        CallPlaced(cfg, s, e, d);
      } else if e.Claim? {
        ClaimPlaced(cfg, s, e, d);
      } else {
        CrashPlaced(cfg, s, e, d);
      }
    }
  }

  lemma KeepsSolo(cfg: Config, s: State, e: Event)
    requires Enabled(s, e) && InTurn(s, e) && SoloInv(cfg, s) && NamesApart(s.history.born)
    ensures SoloInv(cfg, Apply(cfg, s, e))
  {
    KeepsInv(cfg, s, e);
    KeepsAlone(cfg, s, e);
    KeepsLatestFits(cfg, s, e);
    KeepsTracked(cfg, s, e);
    KeepsHoldsLatest(cfg, s, e);
    KeepsSecretsForImages(cfg, s, e);
    KeepsOwned(cfg, s, e);
    if e.Claim? {
      ClaimKeepsOrder(cfg, s, e);
    } else {
      OtherKeepsOrder(cfg, s, e);
    }
    forall d | d in Apply(cfg, s, e).db.deployments
      ensures Placed(Apply(cfg, s, e), d)
    {
      KeepsPlaced(cfg, s, e, d);
    }
  }

  /** What was born stays in the history. */
  lemma {:induction false} BornForGood(cfg: Config, s: State, es: seq<Event>, d: Id)
    requires Legal(cfg, s, es) && d in s.history.born
    ensures d in Run(cfg, s, es).history.born && Run(cfg, s, es).history.born[d] == s.history.born[d]
    decreases |es|
  {
    if es != [] {
      BornStays(cfg, s, es[0]);
      BornForGood(cfg, Apply(cfg, s, es[0]), es[1..], d);
    }
  }

  /** Names that are apart at the end of a run were apart before. */
  lemma BornBefore(cfg: Config, s: State, es: seq<Event>)
    requires Legal(cfg, s, es) && NamesApart(Run(cfg, s, es).history.born)
    ensures NamesApart(s.history.born)
  {
    forall d | d in s.history.born
      ensures d in Run(cfg, s, es).history.born && Run(cfg, s, es).history.born[d] == s.history.born[d]
    {
      BornForGood(cfg, s, es, d);
    }
    ApartBelow(s.history.born, Run(cfg, s, es).history.born);
  }

  lemma ApartBelow(born: map<Id, Birth>, more: map<Id, Birth>)
    requires NamesApart(more) && forall d | d in born :: d in more && more[d] == born[d]
    ensures NamesApart(born)
  {
  }

  lemma {:induction false} RunKeepsSolo(cfg: Config, s: State, es: seq<Event>)
    requires Legal(cfg, s, es) && OneByOne(cfg, s, es) && SoloInv(cfg, s) && NamesApart(Run(cfg, s, es).history.born)
    ensures SoloInv(cfg, Run(cfg, s, es))
    decreases |es|
  {
    if es != [] {
      BornBefore(cfg, s, es);
      KeepsSolo(cfg, s, es[0]);
      RunKeepsSolo(cfg, Apply(cfg, s, es[0]), es[1..]);
    }
  }

  lemma InitialSolo(cfg: Config)
    ensures SoloInv(cfg, INITIAL)
  {
    InitialInv(cfg);
  }

  // ---- what that means --------------------------------------------------------------

  /** How a finished task leaves its deployment. */
  predicate SettledBy(cfg: Config, s: State, d: Id, t: TaskId)
    requires d in s.db.deployments && t in s.db.tasks
  {
    var row := s.db.deployments[d];
    match s.db.tasks[t].status
    case COMPLETED =>
      if s.db.tasks[t].kind == DEPLOY then
        row.status == ACTIVE && row.endpoint == Some(EndpointOf(cfg, row.birth.slug, d)) && Present(s.cluster, row.birth.slug, d)
      else row.status == DELETED && Absent(s.cluster, row.birth.slug, d)
    case TASK_FAILED => row.status == FAILED
    case _ => false
  }

  /** A task of the deployment that none of its tasks is newer than. */
  predicate LastTask(db: Database, d: Id, t: TaskId)
  {
    && t in db.tasks && db.tasks[t].deployment == d
    && forall u | u in db.tasks && db.tasks[u].deployment == d :: db.tasks[u].createdAt <= db.tasks[t].createdAt
  }

  /** The last claimed task of the deployment is a last task of it, and left it as a finished task
      does, unless it is still in progress. */
  ghost predicate SettledByLatest(cfg: Config, s: State, d: Id)
    requires d in s.db.deployments
  {
    && d in s.history.latest
    && var t := s.history.latest[d];
       LastTask(s.db, d, t) && (s.db.tasks[t].status == IN_PROGRESS || SettledBy(cfg, s, d, t))
  }

  lemma NothingRequested(s: State, w: WorkerId, d: Id)
    requires Enabled(s, FindNone(w, {}))
    ensures !Requested(s.db, d)
  {
  }

  /** With the queue empty, every deployment has been claimed. */
  lemma ClaimedByNow(cfg: Config, s: State, w: WorkerId, d: Id)
    requires SoloInv(cfg, s) && Enabled(s, FindNone(w, {})) && d in s.db.deployments
    ensures d in s.history.latest
  {
    assert Explained(s, d);
    var status := s.db.deployments[d].status;
    if status == PENDING || status == DELETING {
      var kind := if status == PENDING then DEPLOY else DELETE;
      var t :| Awaits(s, d, t, kind);
      TaskClaimed(s, w, d, t);
    }
  }

  lemma TaskClaimed(s: State, w: WorkerId, d: Id, t: TaskId)
    requires ClaimsInOrder(s) && Enabled(s, FindNone(w, {})) && t in s.db.tasks && s.db.tasks[t].deployment == d
    ensures d in s.history.latest
  {
    assert !IsPending(s.db, t);
    assert NotAfterLatest(s, t);
  }

  lemma LatestIsLast(cfg: Config, s: State, w: WorkerId, d: Id)
    requires SoloInv(cfg, s) && Enabled(s, FindNone(w, {})) && d in s.db.deployments && d in s.history.latest
    ensures LastTask(s.db, d, s.history.latest[d])
  {
    forall u | u in s.db.tasks && s.db.tasks[u].deployment == d
      ensures s.db.tasks[u].createdAt <= s.db.tasks[s.history.latest[d]].createdAt
    {
      assert !IsPending(s.db, u);
      assert NotAfterLatest(s, u);
    }
  }

  lemma LatestSettles(cfg: Config, s: State, w: WorkerId, d: Id)
    requires SoloInv(cfg, s) && Enabled(s, FindNone(w, {})) && d in s.db.deployments && d in s.history.latest
    ensures s.history.latest[d] in s.db.tasks
    ensures s.db.tasks[s.history.latest[d]].status == IN_PROGRESS || SettledBy(cfg, s, d, s.history.latest[d])
  {
    NothingRequested(s, w, d);
    assert Placed(s, d) && EndpointFits(cfg, d, s.db.deployments[d]);
    assert Unheld(s, d);
    LeftSettled(cfg, s, d, s.history.latest[d]);
  }

  lemma LeftSettled(cfg: Config, s: State, d: Id, t: TaskId)
    requires d in s.db.deployments && t in s.db.tasks && !IsPending(s.db, t)
    requires Left(s.db, s.cluster, d, t) && !Requested(s.db, d) && EndpointFits(cfg, d, s.db.deployments[d])
    ensures s.db.tasks[t].status == IN_PROGRESS || SettledBy(cfg, s, d, t)
  {
  }

  /** One worker at a time, crashing or not: when it finds no pending task, every deployment is as the
      last claimed task of it left it: ACTIVE with its workload and service in the cluster, DELETED
      with nothing there, or FAILED. The exception is a task that a crash left in progress. */
  lemma SettledWhenDrained(cfg: Config, es: seq<Event>, w: WorkerId, d: Id)
    requires Legal(cfg, INITIAL, es) && OneByOne(cfg, INITIAL, es) && NamesApart(Run(cfg, INITIAL, es).history.born)
    requires Enabled(Run(cfg, INITIAL, es), FindNone(w, {})) && d in Run(cfg, INITIAL, es).db.deployments
    ensures SettledByLatest(cfg, Run(cfg, INITIAL, es), d)
  {
    InitialSolo(cfg);
    RunKeepsSolo(cfg, INITIAL, es);
    var s := Run(cfg, INITIAL, es);
    ClaimedByNow(cfg, s, w, d);
    LatestIsLast(cfg, s, w, d);
    LatestSettles(cfg, s, w, d);
  }

  /** One worker at a time: in every reachable state an ACTIVE deployment has its workload and its
      service in the cluster. */
  lemma ActiveRuns(cfg: Config, es: seq<Event>, d: Id)
    requires Legal(cfg, INITIAL, es) && OneByOne(cfg, INITIAL, es) && NamesApart(Run(cfg, INITIAL, es).history.born)
    requires d in Run(cfg, INITIAL, es).db.deployments
    ensures var s := Run(cfg, INITIAL, es);
      s.db.deployments[d].status == ACTIVE ==> Present(s.cluster, s.db.deployments[d].birth.slug, d)
  {
    InitialSolo(cfg);
    RunKeepsSolo(cfg, INITIAL, es);
    assert Placed(Run(cfg, INITIAL, es), d);
  }

  // ---- runs without crashes ---------------------------------------------------------

  /** Without crashes a task in progress is in some worker's hands. */
  ghost predicate AllInHand(s: State)
  {
    forall t | t in s.db.tasks && s.db.tasks[t].status == IN_PROGRESS :: InHand(s, t)
  }

  ghost predicate InHand(s: State, t: TaskId)
  {
    exists w :: w in s.workers && s.workers[w].pc.HasJob() && s.workers[w].pc.job.task == t
  }

  lemma KeepsInHand(cfg: Config, s: State, e: Event)
    requires Enabled(s, e) && !e.Crash? && AllInHand(s) && TaskInv(s)
    ensures AllInHand(Apply(cfg, s, e))
  {
    var n := Apply(cfg, s, e);
    forall t | t in n.db.tasks && n.db.tasks[t].status == IN_PROGRESS
      ensures InHand(n, t)
    {
      if e.Claim? && e.task == t {
        assert n.workers[e.w].pc.job.task == t;
      } else {
        InProgressBefore(cfg, s, e, t);
        var w :| w in s.workers && s.workers[w].pc.HasJob() && s.workers[w].pc.job.task == t;
        StaysInHand(cfg, s, e, t, w);
      }
    }
  }

  lemma InProgressBefore(cfg: Config, s: State, e: Event, t: TaskId)
    requires Enabled(s, e) && !(e.Claim? && e.task == t)
    requires t in Apply(cfg, s, e).db.tasks && Apply(cfg, s, e).db.tasks[t].status == IN_PROGRESS
    ensures t in s.db.tasks && s.db.tasks[t].status == IN_PROGRESS
  {
  }

  lemma StaysInHand(cfg: Config, s: State, e: Event, t: TaskId, w: WorkerId)
    requires Enabled(s, e) && !e.Crash? && w in s.workers && s.workers[w].pc.HasJob() && s.workers[w].pc.job.task == t
    requires t in Apply(cfg, s, e).db.tasks && Apply(cfg, s, e).db.tasks[t].status == IN_PROGRESS
    ensures InHand(Apply(cfg, s, e), t)
  {
    var n := Apply(cfg, s, e);
    assert w in n.workers && n.workers[w].pc.HasJob() && n.workers[w].pc.job.task == t;
  }

  lemma {:induction false} RunKeepsInHand(cfg: Config, s: State, es: seq<Event>)
    requires Legal(cfg, s, es) && (forall e | e in es :: !e.Crash?) && AllInHand(s) && TaskInv(s)
    ensures AllInHand(Run(cfg, s, es))
    decreases |es|
  {
    if es != [] {
      KeepsInHand(cfg, s, es[0]);
      KeepsTasks(cfg, s, es[0]);
      RunKeepsInHand(cfg, Apply(cfg, s, es[0]), es[1..]);
    }
  }

  /** A single worker that never crashes: when it finds no pending task, the last claimed task of every
      deployment is finished, and the deployment is as that task left it. */
  lemma SettledWithoutCrashes(cfg: Config, es: seq<Event>, w: WorkerId, d: Id)
    requires Legal(cfg, INITIAL, es) && OneByOne(cfg, INITIAL, es) && NamesApart(Run(cfg, INITIAL, es).history.born)
    requires forall e | e in es :: !e.Crash?
    requires Enabled(Run(cfg, INITIAL, es), FindNone(w, {})) && d in Run(cfg, INITIAL, es).db.deployments
    ensures var s := Run(cfg, INITIAL, es);
      && d in s.history.latest
      && LastTask(s.db, d, s.history.latest[d]) && SettledBy(cfg, s, d, s.history.latest[d])
  {
    SettledWhenDrained(cfg, es, w, d);
    InitialSolo(cfg);
    RunKeepsSolo(cfg, INITIAL, es);
    RunKeepsInHand(cfg, INITIAL, es);
    var s := Run(cfg, INITIAL, es);
    NothingInProgress(s, w);
  }

  /** The only worker has no job. */
  lemma NothingInProgress(s: State, w: WorkerId)
    requires Alone(s) && At(s, w, Draining) && AllInHand(s)
    ensures forall t | t in s.db.tasks :: s.db.tasks[t].status != IN_PROGRESS
  {
    forall v | v in s.workers
      ensures !s.workers[v].pc.HasJob()
    {
      assert v == w;
    }
    assert forall t | t in s.db.tasks && s.db.tasks[t].status == IN_PROGRESS :: InHand(s, t);
  }
}
