/** The deployment protocol as a transition system: control-plane requests, deployment workers,
    the cluster and the notification queues.

    One event is one committed request, one database or cluster call of a worker, one process
    start or crash, or one notification moved along. A database call that raises has no effect; a
    cluster call may raise before or after its effect. */
module Deployments {
  import opened OrderedDict
  import opened KubernetesNames

  type Id = string
  type TaskId = nat
  type WorkerId = nat

  // ---- the tables -------------------------------------------------------------------

  datatype Status = PENDING | DEPLOYING | ACTIVE | FAILED | DELETING | DELETED

  datatype Endpoint = Endpoint(
    url: string, namespace: string, deploymentName: string, serviceName: string, servicePort: nat)

  /** What a deployment row never changes: its owner, its name and slug, and whether it runs an image. */
  datatype Birth = Birth(user: string, name: string, slug: string, image: bool)

  datatype Deployment = Deployment(birth: Birth, status: Status, endpoint: Option<Endpoint>)

  datatype Kind = DEPLOY | DELETE

  datatype TaskStatus = TASK_PENDING | IN_PROGRESS | COMPLETED | TASK_FAILED

  datatype Task = Task(deployment: Id, kind: Kind, status: TaskStatus, createdAt: nat)

  datatype Database = Database(deployments: map<Id, Deployment>, tasks: map<TaskId, Task>, nextTask: TaskId)

  /** Where a settings object sends traffic. */
  datatype Config = Config(namespace: string, gatewayUrl: string)

  /** `_gateway_predict_url`, the trailing slashes of the gateway address already stripped. */
  function GatewayUrl(cfg: Config, slug: string): string
  {
    cfg.gatewayUrl + "/api/v1/deployments/" + slug + ":predict"
  }

  /** The endpoint of a deployment, all of it computed from its slug and identifier. */
  function EndpointOf(cfg: Config, slug: string, id: Id): Endpoint
  {
    Endpoint(GatewayUrl(cfg, slug), cfg.namespace, WorkloadName(slug, id), WorkloadName(slug, id), ServicePort(id))
  }

  // ---- statements on the tables -----------------------------------------------------

  /** A new deployment and its DEPLOY task, in one transaction. */
  function CreateDeployment(db: Database, id: Id, birth: Birth, at: nat): Database
  {
    InsertTask(db.(deployments := db.deployments[id := Deployment(birth, PENDING, None)]), id, DEPLOY, at)
  }

  function InsertTask(db: Database, id: Id, kind: Kind, at: nat): Database
  {
    db.(tasks := db.tasks[db.nextTask := Task(id, kind, TASK_PENDING, at)], nextTask := db.nextTask + 1)
  }

  /** `mark_deployment_status` and `update_status`: no row, no effect. */
  function SetStatus(db: Database, id: Id, status: Status): Database
  {
    if id in db.deployments
    then db.(deployments := db.deployments[id := db.deployments[id].(status := status)])
    else db
  }

  /** `mark_deployment_active`. */
  function SetActive(db: Database, id: Id, endpoint: Endpoint): Database
  {
    if id in db.deployments
    then db.(deployments := db.deployments[id := db.deployments[id].(status := ACTIVE, endpoint := Some(endpoint))])
    else db
  }

  function SetTask(db: Database, t: TaskId, status: TaskStatus): Database
  {
    if t in db.tasks then db.(tasks := db.tasks[t := db.tasks[t].(status := status)]) else db
  }

  /** `delete_deployment` of a row that exists. */
  function DeleteDeployment(db: Database, id: Id, at: nat): Database
    requires id in db.deployments
  {
    if db.deployments[id].status == DELETED then db
    else InsertTask(SetStatus(db, id, DELETING), id, DELETE, at)
  }

  /** `hard_delete`: the row goes, and its tasks with it. */
  function PurgeDeployment(db: Database, id: Id): Database
  {
    db.(deployments := map d | d in db.deployments && d != id :: db.deployments[d],
        tasks := map t | t in db.tasks && db.tasks[t].deployment != id :: db.tasks[t])
  }

  predicate IsPending(db: Database, t: TaskId)
  {
    t in db.tasks && db.tasks[t].status == TASK_PENDING
  }

  /** What `claim_next_task` may pick when other transactions hold locks on some tasks. */
  predicate Claimable(db: Database, t: TaskId, locked: set<TaskId>)
  {
    && IsPending(db, t) && t !in locked
    && forall u | u in db.tasks && IsPending(db, u) && u !in locked :: db.tasks[t].createdAt <= db.tasks[u].createdAt
  }

  // ---- the cluster ------------------------------------------------------------------

  /** Objects by name, each with the deployment it was built for. */
  datatype Cluster = Cluster(workloads: map<string, Id>, services: map<string, Id>, secrets: map<string, Id>)

  // ---- the workers ------------------------------------------------------------------

  /** What `fetch_deployment_spec` reads. */
  datatype Spec = Spec(birth: Birth, credentials: bool)

  /** A claimed task, as the worker holds it. */
  datatype Job = Job(task: TaskId, deployment: Id, kind: Kind)

  /** The calls of `process_task` after the specification was fetched, and before its handler. */
  datatype Call =
    | MarkDeploying | ApplySecret | ApplyDeployment | ApplyService | AwaitAvailable | AwaitReady | MarkActive
    | MarkDeleting | DropDeployment | DropService | DropSecret | MarkDeleted
    | MarkCompleted

  /** Where a worker is: what it calls next. `Failing` and `Recording` are the two statements of
      the exception handler. */
  datatype Pc =
    | Draining
    | Connecting
    | Idle
    | Fetching(job: Job)
    | Running(job: Job, spec: Spec, call: Call)
    | Failing(job: Job)
    | Recording(job: Job)
  {
    predicate HasJob() { Fetching? || Running? || Failing? || Recording? }
  }

  /** A worker process: where it is, whether it listens and from which task on, and the
      notifications under way to it and in its queue. */
  datatype Worker = Worker(pc: Pc, listening: bool, since: TaskId, transit: nat, queue: nat)

  /** History: every deployment ever created, all claims in order, and the last claim of each
      deployment. No step reads it. */
  datatype History = History(born: map<Id, Birth>, claims: seq<TaskId>, latest: map<Id, TaskId>)

  datatype State = State(db: Database, cluster: Cluster, workers: map<WorkerId, Worker>, history: History)

  const INITIAL := State(Database(map[], map[], 0), Cluster(map[], map[], map[]), map[], History(map[], [], map[]))

  // ---- one call of a worker ---------------------------------------------------------

  predicate ChangesCluster(call: Call)
  {
    call in {ApplySecret, ApplyDeployment, ApplyService, DropDeployment, DropService, DropSecret}
  }

  function FirstCall(kind: Kind): Call { if kind == DEPLOY then MarkDeploying else MarkDeleting }

  /** The call after one that returned. */
  function NextCall(spec: Spec, call: Call): Call
    requires call != MarkCompleted
  {
    match call
    case MarkDeploying => if spec.birth.image && spec.credentials then ApplySecret else ApplyDeployment
    case ApplySecret => ApplyDeployment
    case ApplyDeployment => ApplyService
    case ApplyService => AwaitAvailable
    case AwaitAvailable => AwaitReady
    case AwaitReady => MarkActive
    case MarkActive => MarkCompleted
    case MarkDeleting => DropDeployment
    case DropDeployment => DropService
    case DropService => if spec.birth.image then DropSecret else MarkDeleted
    case DropSecret => MarkDeleted
    case MarkDeleted => MarkCompleted
  }

  /** The tables after the call a worker is about to make. */
  function DatabaseAfter(cfg: Config, db: Database, p: Pc): Database
    requires p.HasJob()
  {
    match p
    case Fetching(_) => db
    case Failing(job) => SetStatus(db, job.deployment, FAILED)
    case Recording(job) => SetTask(db, job.task, TASK_FAILED)
    case Running(job, spec, call) =>
      match call
      case MarkDeploying => SetStatus(db, job.deployment, DEPLOYING)
      case MarkActive => SetActive(db, job.deployment, EndpointOf(cfg, spec.birth.slug, job.deployment))
      case MarkDeleting => SetStatus(db, job.deployment, DELETING)
      case MarkDeleted => SetStatus(db, job.deployment, DELETED)
      case MarkCompleted => SetTask(db, job.task, COMPLETED)
      case _ => db
  }

  /** The cluster after it. Applying reads and then creates or patches, which is a put; deleting
      ignores a missing object. */
  function ClusterAfter(c: Cluster, p: Pc): Cluster
  {
    if !p.Running? then c
    else
      var id := p.job.deployment;
      var name := WorkloadName(p.spec.birth.slug, id);
      match p.call
      case ApplySecret => c.(secrets := c.secrets[PullSecretName(id) := id])
      case ApplyDeployment => c.(workloads := c.workloads[name := id])
      case ApplyService => c.(services := c.services[name := id])
      case DropDeployment => c.(workloads := c.workloads - {name})
      case DropService => c.(services := c.services - {name})
      case DropSecret => c.(secrets := c.secrets - {PullSecretName(id)})
      case _ => c
  }

  datatype Outcome = Returns | Raises | RaisesLate

  /** Where the worker goes after a call that returned. */
  function PcAfter(db: Database, p: Pc, credentials: bool): Pc
    requires p.HasJob() && (p.Fetching? ==> p.job.deployment in db.deployments)
  {
    match p
    case Fetching(job) => Running(job, Spec(db.deployments[job.deployment].birth, credentials), FirstCall(job.kind))
    case Running(job, spec, call) => if call == MarkCompleted then Draining else p.(call := NextCall(spec, call))
    case Failing(job) => Recording(job)
    case Recording(_) => Draining
  }

  predicate CanCall(s: State, w: WorkerId, outcome: Outcome)
  {
    && w in s.workers && s.workers[w].pc.HasJob()
    && var p := s.workers[w].pc;
       match outcome
       case Returns => p.Fetching? ==> p.job.deployment in s.db.deployments
       case Raises => p.Fetching? || p.Running?
       case RaisesLate => p.Running? && ChangesCluster(p.call)
  }

  /** A call that returns, or raises only after its effect, has its effect. Raising leads to the
      exception handler. */
  function Step(cfg: Config, s: State, w: WorkerId, outcome: Outcome, credentials: bool): State
    requires CanCall(s, w, outcome)
  {
    var p := s.workers[w].pc;
    if outcome.Returns? then
      Moved(s, w, PcAfter(s.db, p, credentials))
      .(db := DatabaseAfter(cfg, s.db, p), cluster := ClusterAfter(s.cluster, p))
    else if outcome.Raises? then Moved(s, w, Failing(p.job))
    else Moved(s, w, Failing(p.job)).(cluster := ClusterAfter(s.cluster, p))
  }

  // ---- events -----------------------------------------------------------------------

  datatype Event =
    | Create(id: Id, birth: Birth, at: nat)
    | RequestDelete(id: Id, at: nat)
    | Purge(id: Id)
    | Start(w: WorkerId)
    | Crash(w: WorkerId)
    | Claim(w: WorkerId, task: TaskId, locked: set<TaskId>)
    | FindNone(w: WorkerId, locked: set<TaskId>)
    | Call(w: WorkerId, outcome: Outcome, credentials: bool)
    | Register(w: WorkerId)
    | Deliver(w: WorkerId)
    | Wake(w: WorkerId)

  predicate At(s: State, w: WorkerId, pc: Pc)
  {
    w in s.workers && s.workers[w].pc == pc
  }

  predicate FreeName(db: Database, user: string, name: string)
  {
    forall d | d in db.deployments :: db.deployments[d].birth.user != user || db.deployments[d].birth.name != name
  }

  predicate FreeSlug(db: Database, user: string, slug: string)
  {
    forall d | d in db.deployments :: db.deployments[d].birth.user != user || db.deployments[d].birth.slug != slug
  }

  /** Only another worker can hold a lock. */
  predicate CanLock(s: State, w: WorkerId, locked: set<TaskId>)
  {
    locked == {} || exists v | v in s.workers :: v != w
  }

  predicate Enabled(s: State, e: Event)
  {
    match e
    case Create(id, birth, _) =>
      id !in s.history.born && FreeName(s.db, birth.user, birth.name) && FreeSlug(s.db, birth.user, birth.slug)
    case RequestDelete(id, _) => id in s.db.deployments
    case Purge(id) => id in s.db.deployments
    case Start(w) => w !in s.workers
    case Crash(w) => w in s.workers
    case Claim(w, t, locked) => At(s, w, Draining) && Claimable(s.db, t, locked) && CanLock(s, w, locked)
    case FindNone(w, locked) =>
      && At(s, w, Draining) && CanLock(s, w, locked)
      && forall t | t in s.db.tasks && IsPending(s.db, t) :: t in locked
    case Call(w, outcome, _) => CanCall(s, w, outcome)
    case Register(w) => At(s, w, Connecting)
    case Deliver(w) => w in s.workers && s.workers[w].transit > 0
    case Wake(w) => At(s, w, Idle) && s.workers[w].queue > 0
  }

  /** The insert trigger: every listening worker gets a notification. */
  function Notify(workers: map<WorkerId, Worker>): (r: map<WorkerId, Worker>)
    ensures r.Keys == workers.Keys
  {
    map w | w in workers :: Notified(workers[w])
  }

  function Notified(k: Worker): Worker
  {
    if k.listening then k.(transit := k.transit + 1) else k
  }

  function Put(s: State, w: WorkerId, k: Worker): State
  {
    s.(workers := s.workers[w := k])
  }

  function Moved(s: State, w: WorkerId, pc: Pc): State
    requires w in s.workers
  {
    Put(s, w, s.workers[w].(pc := pc))
  }

  function TakeTask(s: State, w: WorkerId, t: TaskId): State
    requires w in s.workers && t in s.db.tasks
  {
    var task := s.db.tasks[t];
    Moved(s, w, Fetching(Job(t, task.deployment, task.kind)))
    .(db := SetTask(s.db, t, IN_PROGRESS),
      history := s.history.(claims := s.history.claims + [t], latest := s.history.latest[task.deployment := t]))
  }

  function Apply(cfg: Config, s: State, e: Event): State
    requires Enabled(s, e)
  {
    match e
    case Create(id, birth, at) =>
      s.(db := CreateDeployment(s.db, id, birth, at), workers := Notify(s.workers),
         history := s.history.(born := s.history.born[id := birth]))
    case RequestDelete(id, at) =>
      if s.db.deployments[id].status == DELETED then s
      else s.(db := DeleteDeployment(s.db, id, at), workers := Notify(s.workers))
    case Purge(id) => s.(db := PurgeDeployment(s.db, id))
    case Start(w) => Put(s, w, Worker(Draining, false, 0, 0, 0))
    case Crash(w) => s.(workers := s.workers - {w})
    case Claim(w, t, _) => TakeTask(s, w, t)
    case FindNone(w, _) => Moved(s, w, if s.workers[w].listening then Idle else Connecting)
    case Call(w, outcome, credentials) => Step(cfg, s, w, outcome, credentials)
    case Register(w) => Put(s, w, s.workers[w].(pc := Idle, listening := true, since := s.db.nextTask))
    case Deliver(w) =>
      Put(s, w, s.workers[w].(transit := s.workers[w].transit - 1, queue := s.workers[w].queue + 1))
    case Wake(w) => Put(s, w, s.workers[w].(pc := Draining, queue := s.workers[w].queue - 1))
  }

  /** `es` can happen one after the other. */
  predicate Legal(cfg: Config, s: State, es: seq<Event>)
    decreases |es|
  {
    es == [] || (Enabled(s, es[0]) && Legal(cfg, Apply(cfg, s, es[0]), es[1..]))
  }

  function Run(cfg: Config, s: State, es: seq<Event>): State
    requires Legal(cfg, s, es)
    decreases |es|
  {
    if es == [] then s else Run(cfg, Apply(cfg, s, es[0]), es[1..])
  }

  lemma {:induction false} RunConcat(cfg: Config, s: State, es: seq<Event>, fs: seq<Event>)
    requires Legal(cfg, s, es) && Legal(cfg, Run(cfg, s, es), fs)
    ensures Legal(cfg, s, es + fs) && Run(cfg, s, es + fs) == Run(cfg, Run(cfg, s, es), fs)
    decreases |es|
  {
    if es == [] {
      assert es + fs == fs;
    } else {
      assert (es + fs)[1..] == es[1..] + fs;
      RunConcat(cfg, Apply(cfg, s, es[0]), es[1..], fs);
    }
  }

  lemma {:induction false} RunSplit(cfg: Config, s: State, es: seq<Event>, fs: seq<Event>)
    requires Legal(cfg, s, es + fs)
    ensures Legal(cfg, s, es) && Legal(cfg, Run(cfg, s, es), fs)
    ensures Run(cfg, s, es + fs) == Run(cfg, Run(cfg, s, es), fs)
    decreases |es|
  {
    if es == [] {
      assert es + fs == fs;
    } else {
      assert (es + fs)[1..] == es[1..] + fs;
      RunSplit(cfg, Apply(cfg, s, es[0]), es[1..], fs);
    }
  }

  lemma RunOne(cfg: Config, s: State, e: Event)
    ensures Legal(cfg, s, [e]) <==> Enabled(s, e)
    ensures Enabled(s, e) ==> Run(cfg, s, [e]) == Apply(cfg, s, e)
  {
    assert [e][1..] == [];
  }

  lemma RunSnoc(cfg: Config, s: State, es: seq<Event>, e: Event)
    requires Legal(cfg, s, es) && Enabled(Run(cfg, s, es), e)
    ensures Legal(cfg, s, es + [e]) && Run(cfg, s, es + [e]) == Apply(cfg, Run(cfg, s, es), e)
  {
    RunOne(cfg, Run(cfg, s, es), e);
    RunConcat(cfg, s, es, [e]);
  }

  // ---- the gateway ------------------------------------------------------------------

  datatype Target = Target(id: Id, namespace: string, serviceName: string, servicePort: nat)

  /** The columns are written together, so one option stands for all the null checks. */
  predicate Routable(d: Deployment, user: string, slug: string)
  {
    d.birth.user == user && d.birth.slug == slug && d.status == ACTIVE && d.endpoint.Some?
  }

  /** `LookupDeployment`: the rows its query can return. */
  function Lookup(db: Database, user: string, slug: string): set<Target>
  {
    set d | d in db.deployments && Routable(db.deployments[d], user, slug) ::
      var e := db.deployments[d].endpoint.value; Target(d, e.namespace, e.serviceName, e.servicePort)
  }
}
