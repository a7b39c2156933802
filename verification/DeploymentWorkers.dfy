/** The worker process as it is written (deployment-service/src/deployment_service/worker.py and
    db.py): a drain loop, a sequence of calls and an exception handler. Every call is one event of
    the protocol, so whatever the process does is a legal run. */
module DeploymentWorkers {
  import opened OrderedDict
  import opened KubernetesNames
  import opened Deployments
  import opened DeploymentPlacement
  import opened DeploymentSafety
  import opened DeploymentSettling

  /** What happens around one call: what others do before it, how it ends, whether registry
      credentials are configured at that moment, and which tasks others have locked. */
  datatype Turn = Turn(others: seq<Event>, outcome: Outcome, credentials: bool, locked: set<TaskId>)

  /** Events of others: everything but the steps of this worker itself. Its notifications arrive
      without its doing. */
  predicate Foreign(e: Event, w: WorkerId)
  {
    match e
    case Create(_, _, _) => true
    case RequestDelete(_, _) => true
    case Purge(_) => true
    case Deliver(_) => true
    case _ => e.w != w
  }

  lemma ForeignLeavesPc(cfg: Config, s: State, e: Event, w: WorkerId)
    requires Enabled(s, e) && Foreign(e, w) && w in s.workers
    ensures w in Apply(cfg, s, e).workers && Apply(cfg, s, e).workers[w].pc == s.workers[w].pc
    ensures Apply(cfg, s, e).workers[w].listening == s.workers[w].listening
  {
  }

  // ---- what a worker asks for -------------------------------------------------------

  /** A call as its caller writes it. */
  datatype Request =
    | FetchSpec(deployment: Id)
    | SetDeploymentStatus(deployment: Id, status: Status)
    | SetDeploymentActive(deployment: Id, endpoint: Endpoint)
    | SetTaskCompleted(task: TaskId)
    | SetTaskFailed(task: TaskId)
    | ApplyWorkload(name: string, deployment: Id)
    | ApplyWorkloadService(name: string, deployment: Id)
    | ApplyPullSecret(name: string, deployment: Id)
    | WaitForAvailable(name: string)
    | WaitForReady(name: string)
    | DeleteWorkload(name: string)
    | DeleteWorkloadService(name: string)
    | DeletePullSecret(name: string)

  /** The call the protocol has a worker make at this point. */
  function RequestOf(cfg: Config, p: Pc): Request
    requires p.HasJob()
  {
    var id := p.job.deployment;
    match p
    case Fetching(_) => FetchSpec(id)
    case Failing(_) => SetDeploymentStatus(id, FAILED)
    case Recording(job) => SetTaskFailed(job.task)
    case Running(job, spec, call) =>
      var name := WorkloadName(spec.birth.slug, id);
      match call
      case MarkDeploying => SetDeploymentStatus(id, DEPLOYING)
      case ApplySecret => ApplyPullSecret(PullSecretName(id), id)
      case ApplyDeployment => ApplyWorkload(name, id)
      case ApplyService => ApplyWorkloadService(name, id)
      case AwaitAvailable => WaitForAvailable(name)
      case AwaitReady => WaitForReady(name)
      case MarkActive => SetDeploymentActive(id, EndpointOf(cfg, spec.birth.slug, id))
      case MarkDeleting => SetDeploymentStatus(id, DELETING)
      case DropDeployment => DeleteWorkload(name)
      case DropService => DeleteWorkloadService(name)
      case DropSecret => DeletePullSecret(PullSecretName(id))
      case MarkDeleted => SetDeploymentStatus(id, DELETED)
      case MarkCompleted => SetTaskCompleted(job.task)
  }

  /** What a request does to the tables, and to the cluster. */
  function Execute(db: Database, r: Request): Database
  {
    match r
    case SetDeploymentStatus(d, status) => SetStatus(db, d, status)
    case SetDeploymentActive(d, endpoint) => SetActive(db, d, endpoint)
    case SetTaskCompleted(t) => SetTask(db, t, COMPLETED)
    case SetTaskFailed(t) => SetTask(db, t, TASK_FAILED)
    case _ => db
  }

  function ExecuteOn(c: Cluster, r: Request): Cluster
  {
    match r
    case ApplyWorkload(name, d) => c.(workloads := c.workloads[name := d])
    case ApplyWorkloadService(name, d) => c.(services := c.services[name := d])
    case ApplyPullSecret(name, d) => c.(secrets := c.secrets[name := d])
    case DeleteWorkload(name) => c.(workloads := c.workloads - {name})
    case DeleteWorkloadService(name) => c.(services := c.services - {name})
    case DeletePullSecret(name) => c.(secrets := c.secrets - {name})
    case _ => c
  }

  /** A step of the protocol has the effect of the call the worker writes at that point. */
  lemma StepsDoWhatIsAsked(cfg: Config, s: State, w: WorkerId, credentials: bool)
    requires CanCall(s, w, Returns)
    ensures var r, n := RequestOf(cfg, s.workers[w].pc), Step(cfg, s, w, Returns, credentials);
      n.db == Execute(s.db, r) && n.cluster == ExecuteOn(s.cluster, r)
  {
  }

  /** How a worker's place changes when a call returns; what it read is the protocol's business. */
  predicate Follows(p: Pc, q: Pc)
    requires p.HasJob()
  {
    match p
    case Fetching(job) => q.Running? && q.job == job && q.call == FirstCall(job.kind)
    case Running(job, spec, call) => if call == MarkCompleted then q == Draining else q == Running(job, spec, NextCall(spec, call))
    case Failing(job) => q == Recording(job)
    case Recording(_) => q == Draining
  }

  lemma CallFollows(cfg: Config, s: State, w: WorkerId, outcome: Outcome, credentials: bool)
    requires CanCall(s, w, outcome)
    ensures var p, n := s.workers[w].pc, Step(cfg, s, w, outcome, credentials);
      w in n.workers
      && if outcome.Returns? then
           Follows(p, n.workers[w].pc)
           && (LastCall(p) && p.job.task in n.db.tasks ==>
                 n.db.tasks[p.job.task].status == if p.Recording? then TASK_FAILED else COMPLETED)
         else n.workers[w].pc == Failing(p.job)
  {
  }

  /** The database, the cluster and everyone who uses them. */
  class World {
    const cfg: Config
    var state: State
    var turns: seq<Turn>
    ghost var events: seq<Event>

    /** The state is what a legal run from an empty installation leads to. */
    ghost predicate Valid()
      reads this
    {
      Legal(cfg, INITIAL, events) && state == Run(cfg, INITIAL, events)
    }

    constructor (cfg: Config, turns: seq<Turn>)
      ensures Valid() && state == INITIAL && this.turns == turns && this.cfg == cfg
    {
      this.cfg := cfg;
      this.state := INITIAL;
      this.turns := turns;
      this.events := [];
    }

    method Happen(e: Event)
      requires Valid() && Enabled(state, e)
      modifies this`state, this`events
      ensures Valid() && state == Apply(cfg, old(state), e) && events == old(events) + [e]
    {
      RunSnoc(cfg, INITIAL, events, e);
      state := Apply(cfg, state, e);
      events := events + [e];
    }

    /** The others go first; a worker stays where it is meanwhile. */
    method Await(w: WorkerId) returns (turn: Turn)
      requires Valid() && w in state.workers
      modifies this
      ensures Valid() && old(events) <= events
      ensures w in state.workers && state.workers[w].pc == old(state.workers[w].pc)
      ensures state.workers[w].listening == old(state.workers[w].listening)
      ensures |turns| <= old(|turns|) && (old(turns) != [] ==> |turns| < old(|turns|))
    {
      if turns == [] {
        return Turn([], Returns, false, {});
      }
      turn := turns[0];
      turns := turns[1..];
      var i := 0;
      while i < |turn.others|
        invariant Valid() && old(events) <= events && turns == old(turns)[1..]
        invariant w in state.workers && state.workers[w].pc == old(state.workers[w].pc)
        invariant state.workers[w].listening == old(state.workers[w].listening)
      {
        var e := turn.others[i];
        if Enabled(state, e) && Foreign(e, w) {
          ForeignLeavesPc(cfg, state, e, w);
          Happen(e);
        }
        i := i + 1;
      }
    }

    /** One call of `process_task`. It must be the call the protocol expects of the worker. When a
        call of the exception handler raises, the process ends. */
    method Do(w: WorkerId, request: Request) returns (ok: bool)
      requires Valid() && w in state.workers && state.workers[w].pc.HasJob()
      requires request == RequestOf(cfg, state.workers[w].pc)
      modifies this
      ensures Valid() && old(events) <= events && |turns| <= old(|turns|)
      ensures var p := old(state.workers[w].pc);
        if ok then
          w in state.workers && Follows(p, state.workers[w].pc)
          && (LastCall(p) && p.job.task in state.db.tasks ==>
                state.db.tasks[p.job.task].status == if p.Recording? then TASK_FAILED else COMPLETED)
        else if p.Fetching? || p.Running? then At(state, w, Failing(p.job))
        else w !in state.workers
    {
      var turn := Await(w);
      var p := state.workers[w].pc;
      var outcome := if CanCall(state, w, turn.outcome) then turn.outcome
                     else if p.Fetching? && p.job.deployment !in state.db.deployments then Raises
                     else Returns;
      if (p.Failing? || p.Recording?) && !turn.outcome.Returns? {
        Happen(Crash(w));
        return false;
      }
      ok := outcome.Returns?;
      CallFollows(cfg, state, w, outcome, turn.credentials);
      Happen(Call(w, outcome, turn.credentials));
    }

    /** `claim_next_task`: the oldest pending task that no other transaction has locked. Its own
        transaction may fail, and then the process ends. */
    method ClaimNextTask(w: WorkerId) returns (job: Option<Job>)
      requires Valid() && At(state, w, Draining)
      modifies this
      ensures Valid() && old(events) <= events && |turns| <= old(|turns|) && (old(turns) != [] ==> |turns| < old(|turns|))
      ensures job.Some? ==>
        At(state, w, Fetching(job.value)) && |events| > 0 && events[|events| - 1].Claim?
        && events[|events| - 1].w == w && events[|events| - 1].task == job.value.task
      ensures job.None? && w in state.workers ==>
        && (state.workers[w].pc == Idle || state.workers[w].pc == Connecting)
        && (state.workers[w].pc == Idle <==> state.workers[w].listening)
        && LooksEmpty(state, events, w)
    {
      var turn := Await(w);
      if !turn.outcome.Returns? {
        Happen(Crash(w));
        return None;
      }
      var locked := if CanLock(state, w, turn.locked) then turn.locked else {};
      var found := OldestPending(locked);
      if found.None? {
        Happen(FindNone(w, locked));
        return None;
      }
      var task := state.db.tasks[found.value];
      Happen(Claim(w, found.value, locked));
      return Some(Job(found.value, task.deployment, task.kind));
    }

    /** The query of `claim_next_task`: pending tasks that are not locked, oldest first, the first of them. */
    method OldestPending(locked: set<TaskId>) returns (found: Option<TaskId>)
      ensures found.None? ==> forall t | t in state.db.tasks && IsPending(state.db, t) :: t in locked
      ensures found.Some? ==> Claimable(state.db, found.value, locked)
    {
      var db := state.db;
      var todo := db.tasks.Keys;
      found := None;
      while todo != {}
        invariant todo <= db.tasks.Keys
        invariant found.None? ==> forall t | t in db.tasks && t !in todo && IsPending(db, t) :: t in locked
        invariant found.Some? ==> IsPending(db, found.value) && found.value !in locked
        invariant found.Some? ==> forall t | t in db.tasks && t !in todo && IsPending(db, t) && t !in locked ::
                    db.tasks[found.value].createdAt <= db.tasks[t].createdAt
        decreases |todo|
      {
        var t :| t in todo;
        todo := todo - {t};
        if IsPending(db, t) && t !in locked && (found.None? || db.tasks[t].createdAt < db.tasks[found.value].createdAt) {
          found := Some(t);
        }
      }
    }
  }

  /** One worker process. */
  class DeploymentWorker {
    const world: World
    const id: WorkerId

    constructor (world: World, id: WorkerId)
      ensures this.world == world && this.id == id
    {
      this.world := world;
      this.id := id;
    }

    /** One call before the last one of a task: the worker gets to the next, or to the handler. */
    method Proceed(spec: Spec, job: Job, call: Call, request: Request) returns (ok: bool)
      requires world.Valid() && At(world.state, id, Running(job, spec, call)) && call != MarkCompleted
      requires request == RequestOf(world.cfg, Running(job, spec, call))
      modifies world
      ensures Goes(old(world.events), old(world.turns))
      ensures At(world.state, id, if ok then Running(job, spec, NextCall(spec, call)) else Failing(job))
    {
      ok := world.Do(id, request);
    }

    /** Whatever happened, it was a legal run, and it took turns of the script. */
    ghost predicate Goes(events: seq<Event>, turns: seq<Turn>)
      reads world
    {
      world.Valid() && events <= world.events && |world.turns| <= |turns|
    }

    /** `KubernetesDeployer.deploy`. */
    method Deploy(spec: Spec, job: Job) returns (ok: bool)
      requires world.Valid() && At(world.state, id, Running(job, spec, NextCall(spec, MarkDeploying)))
      modifies world
      ensures Goes(old(world.events), old(world.turns))
      ensures At(world.state, id, if ok then Running(job, spec, MarkActive) else Failing(job))
    {
      if spec.birth.image && spec.credentials {
        ok := Proceed(spec, job, ApplySecret, ApplyPullSecret(PullSecretName(job.deployment), job.deployment));
        if !ok { return; }
      }
      ok := ApplyObjects(spec, job);
      if !ok { return; }
      ok := AwaitReadiness(spec, job);
    }

    /** Its middle: the workload and the service. */
    method ApplyObjects(spec: Spec, job: Job) returns (ok: bool)
      requires world.Valid() && At(world.state, id, Running(job, spec, ApplyDeployment))
      modifies world
      ensures Goes(old(world.events), old(world.turns))
      ensures At(world.state, id, if ok then Running(job, spec, AwaitAvailable) else Failing(job))
    {
      var name := WorkloadName(spec.birth.slug, job.deployment);
      ok := Proceed(spec, job, ApplyDeployment, ApplyWorkload(name, job.deployment));
      if !ok { return; }
      ok := Proceed(spec, job, ApplyService, ApplyWorkloadService(name, job.deployment));
    }

    /** Its last two statements: the rollout and the readiness of the server. */
    method AwaitReadiness(spec: Spec, job: Job) returns (ok: bool)
      requires world.Valid() && At(world.state, id, Running(job, spec, AwaitAvailable))
      modifies world
      ensures Goes(old(world.events), old(world.turns))
      ensures At(world.state, id, if ok then Running(job, spec, MarkActive) else Failing(job))
    {
      var name := WorkloadName(spec.birth.slug, job.deployment);
      ok := Proceed(spec, job, AwaitAvailable, WaitForAvailable(name));
      if !ok { return; }
      ok := Proceed(spec, job, AwaitReady, WaitForReady(name));
    }

    /** `KubernetesDeployer.delete`. */
    method Delete(spec: Spec, job: Job) returns (ok: bool)
      requires world.Valid() && At(world.state, id, Running(job, spec, DropDeployment))
      modifies world
      ensures Goes(old(world.events), old(world.turns))
      ensures At(world.state, id, if ok then Running(job, spec, MarkDeleted) else Failing(job))
    {
      var name := WorkloadName(spec.birth.slug, job.deployment);
      ok := Proceed(spec, job, DropDeployment, DeleteWorkload(name));
      if !ok { return; }
      ok := Proceed(spec, job, DropService, DeleteWorkloadService(name));
      if !ok { return; }
      if spec.birth.image {
        ok := Proceed(spec, job, DropSecret, DeletePullSecret(PullSecretName(job.deployment)));
      }
    }

    /** The two branches of `process_task`, up to marking the task. */
    method DeployTask(spec: Spec, job: Job) returns (ok: bool)
      requires world.Valid() && At(world.state, id, Running(job, spec, MarkDeploying))
      modifies world
      ensures Goes(old(world.events), old(world.turns))
      ensures At(world.state, id, if ok then Running(job, spec, MarkCompleted) else Failing(job))
    {
      ok := Proceed(spec, job, MarkDeploying, SetDeploymentStatus(job.deployment, DEPLOYING));
      if !ok { return; }
      ok := Deploy(spec, job);
      if !ok { return; }
      ok := Proceed(spec, job, MarkActive,
                    SetDeploymentActive(job.deployment, EndpointOf(world.cfg, spec.birth.slug, job.deployment)));
    }

    method DeleteTask(spec: Spec, job: Job) returns (ok: bool)
      requires world.Valid() && At(world.state, id, Running(job, spec, MarkDeleting))
      modifies world
      ensures Goes(old(world.events), old(world.turns))
      ensures At(world.state, id, if ok then Running(job, spec, MarkCompleted) else Failing(job))
    {
      ok := Proceed(spec, job, MarkDeleting, SetDeploymentStatus(job.deployment, DELETING));
      if !ok { return; }
      ok := Delete(spec, job);
      if !ok { return; }
      ok := Proceed(spec, job, MarkDeleted, SetDeploymentStatus(job.deployment, DELETED));
    }

    /** The body of the `try` statement of `process_task`. */
    method TryTask(job: Job) returns (ok: bool)
      requires world.Valid() && At(world.state, id, Fetching(job))
      modifies world
      ensures Goes(old(world.events), old(world.turns))
      ensures if ok then At(world.state, id, Draining) && Finished(world.state.db, job.task, COMPLETED)
              else At(world.state, id, Failing(job))
    {
      ok := world.Do(id, FetchSpec(job.deployment));
      if !ok { return; }
      var spec := world.state.workers[id].pc.spec;
      ok := CarryOut(spec, job);
      if !ok { return; }
      ok := world.Do(id, SetTaskCompleted(job.task));
    }

    /** By the kind of the task. */
    method CarryOut(spec: Spec, job: Job) returns (ok: bool)
      requires world.Valid() && At(world.state, id, Running(job, spec, FirstCall(job.kind)))
      modifies world
      ensures Goes(old(world.events), old(world.turns))
      ensures At(world.state, id, if ok then Running(job, spec, MarkCompleted) else Failing(job))
    {
      if job.kind == DEPLOY {
        ok := DeployTask(spec, job);
      } else {
        ok := DeleteTask(spec, job);
      }
    }

    /** `process_task`: every call it makes is the one the protocol expects, and unless the process
        ends, the task is finished when it returns. */
    method ProcessTask(job: Job)
      requires world.Valid() && At(world.state, id, Fetching(job))
      modifies world
      ensures Goes(old(world.events), old(world.turns))
      ensures id in world.state.workers ==>
        At(world.state, id, Draining)
        && (Finished(world.state.db, job.task, COMPLETED) || Finished(world.state.db, job.task, TASK_FAILED))
    {
      var ok := TryTask(job);
      if !ok {
        ok := world.Do(id, SetDeploymentStatus(job.deployment, FAILED));
        if ok {
          ok := world.Do(id, SetTaskFailed(job.task));
        }
      }
    }

    /** `process_pending_tasks`, observed until the script of turns ends. A drain that comes to its
        end found no pending task. */
    method ProcessPendingTasks() returns (drained: bool)
      requires world.Valid() && At(world.state, id, Draining)
      modifies world
      ensures Goes(old(world.events), old(world.turns))
      ensures drained ==> LooksEmpty(world.state, world.events, id)
      ensures !drained && id in world.state.workers ==> At(world.state, id, Draining) && world.turns == []
    {
      drained := false;
      while id in world.state.workers && world.turns != []
        invariant world.Valid() && old(world.events) <= world.events && |world.turns| <= old(|world.turns|)
        invariant id in world.state.workers ==> At(world.state, id, Draining)
        decreases |world.turns|
      {
        var job := world.ClaimNextTask(id);
        if job.None? {
          return id in world.state.workers;
        }
        ProcessTask(job.value);
      }
    }

    /** `run_forever`, observed until the script of turns ends: drain, register, and drain again
        for every notification. */
    method RunForever()
      requires world.Valid() && At(world.state, id, Draining) && !world.state.workers[id].listening
      modifies world
      ensures world.Valid() && old(world.events) <= world.events
    {
      var drained := ProcessPendingTasks();
      if drained && world.state.workers[id].pc == Connecting {
        world.Happen(Register(id));
        while drained && world.turns != []
          invariant world.Valid() && old(world.events) <= world.events
          invariant drained ==> At(world.state, id, Idle)
          decreases |world.turns|
        {
          drained := AwaitNotification();
        }
      }
    }

    /** One turn of its loop: wait, and drain if a notification arrived. */
    method AwaitNotification() returns (idle: bool)
      requires world.Valid() && At(world.state, id, Idle) && world.turns != []
      modifies world
      ensures Goes(old(world.events), old(world.turns)) && |world.turns| < |old(world.turns)|
      ensures idle ==> At(world.state, id, Idle)
    {
      var turn := world.Await(id);
      idle := true;
      if world.state.workers[id].queue > 0 {
        world.Happen(Wake(id));
        idle := ProcessPendingTasks();
        idle := idle && world.state.workers[id].pc == Idle;
      }
    }
  }

  predicate Finished(db: Database, t: TaskId, status: TaskStatus)
  {
    t in db.tasks ==> db.tasks[t].status == status
  }

  /** The worker has just found no pending task but locked ones. */
  predicate LooksEmpty(s: State, es: seq<Event>, w: WorkerId)
  {
    && (At(s, w, Idle) || At(s, w, Connecting))
    && |es| > 0 && es[|es| - 1].FindNone? && es[|es| - 1].w == w
    && forall t | t in s.db.tasks && IsPending(s.db, t) :: t in es[|es| - 1].locked
  }

  /** What a drain that came to its end means, when one worker runs at a time: every deployment is
      as its last claimed task left it, unless a crash left that task in progress. */
  lemma DrainSettles(cfg: Config, es: seq<Event>, w: WorkerId, d: Id)
    requires Legal(cfg, INITIAL, es) && OneByOne(cfg, INITIAL, es) && NamesApart(Run(cfg, INITIAL, es).history.born)
    requires LooksEmpty(Run(cfg, INITIAL, es), es, w) && d in Run(cfg, INITIAL, es).db.deployments
    ensures SettledByLatest(cfg, Run(cfg, INITIAL, es), d)
  {
    var before, e := es[..|es| - 1], es[|es| - 1];
    assert es == before + [e];
    RunSplit(cfg, INITIAL, before, [e]);
    OneByOneSplit(cfg, INITIAL, before, [e]);
    RunOne(cfg, Run(cfg, INITIAL, before), e);
    InitialSolo(cfg);
    var s, n := Run(cfg, INITIAL, before), Run(cfg, INITIAL, es);
    assert n.db == s.db && n.cluster == s.cluster && n.history == s.history;
    RunKeepsSolo(cfg, INITIAL, before);
    NoLocks(s, w, e.locked);
    SettledWhenDrained(cfg, before, w, d);
    assert LastTask(n.db, d, s.history.latest[d]);
  }
}
