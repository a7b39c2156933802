/** Runs with one worker that show what deletion requests can meet: a row that says ACTIVE while the
    deletion waits, and a deletion overtaken by a DEPLOY task of the same date. */
module DeletionRuns {
  import opened Deployments
  import opened DeploymentDeletion
  import opened DeploymentPlacement
  import opened DeploymentRows
  import opened DeploymentSettling

  // ---- building runs ----------------------------------------------------------------

  /** `es` leads there, one worker at a time. */
  ghost predicate LeadsTo(cfg: Config, es: seq<Event>, s: State)
  {
    Legal(cfg, INITIAL, es) && OneByOne(cfg, INITIAL, es) && Run(cfg, INITIAL, es) == s
  }

  lemma {:induction false} OneByOneConcat(cfg: Config, s: State, es: seq<Event>, fs: seq<Event>)
    requires Legal(cfg, s, es + fs) && Legal(cfg, s, es) && Legal(cfg, Run(cfg, s, es), fs)
    requires OneByOne(cfg, s, es) && OneByOne(cfg, Run(cfg, s, es), fs)
    ensures OneByOne(cfg, s, es + fs)
    decreases |es|
  {
    if es == [] {
      assert es + fs == fs;
    } else {
      assert (es + fs)[1..] == es[1..] + fs;
      OneByOneConcat(cfg, Apply(cfg, s, es[0]), es[1..], fs);
    }
  }

  lemma LeadsOn(cfg: Config, es: seq<Event>, s: State, e: Event)
    requires LeadsTo(cfg, es, s) && Enabled(s, e) && InTurn(s, e)
    ensures LeadsTo(cfg, es + [e], Apply(cfg, s, e))
  {
    RunOne(cfg, s, e);
    RunSnoc(cfg, INITIAL, es, e);
    assert [e][1..] == [];
    OneByOneConcat(cfg, INITIAL, es, [e]);
  }

  /** The only worker is at `pc`, and the only deployment was created so. */
  ghost predicate Lone(s: State, d: Id, birth: Birth, pc: Pc)
  {
    && s.workers == map[0 := Worker(pc, false, 0, 0, 0)] && s.history.born == map[d := birth]
    && d in s.db.deployments && s.db.deployments[d].birth == birth
  }

  ghost predicate Working(s: State, job: Job, birth: Birth, call: Call)
  {
    Lone(s, job.deployment, birth, Running(job, Spec(birth, false), call))
  }

  /** A worker starts and a deployment is created. */
  lemma Created(cfg: Config, d: Id, birth: Birth, at: nat) returns (es: seq<Event>, s: State)
    ensures LeadsTo(cfg, es, s) && Lone(s, d, birth, Draining) && s.db.deployments[d].status == PENDING
    ensures s.db.tasks == map[0 := Task(d, DEPLOY, TASK_PENDING, at)] && s.db.nextTask == 1
  {
    LeadsOn(cfg, [], INITIAL, Start(0));
    es, s := [] + [Start(0)], Apply(cfg, INITIAL, Start(0));
    assert s.workers == map[0 := Worker(Draining, false, 0, 0, 0)];
    LeadsOn(cfg, es, s, Create(d, birth, at));
    es, s := es + [Create(d, birth, at)], Apply(cfg, s, Create(d, birth, at));
  }

  const RETURNED := Call(0, Returns, false)

  /** The worker claims a task and fetches its deployment. */
  lemma Takes(cfg: Config, es: seq<Event>, s: State, d: Id, birth: Birth, t: TaskId) returns (n: State)
    requires LeadsTo(cfg, es, s) && Lone(s, d, birth, Draining) && Claimable(s.db, t, {}) && s.db.tasks[t].deployment == d
    ensures LeadsTo(cfg, es + [Claim(0, t, {}), RETURNED], n)
    ensures Working(n, Job(t, d, s.db.tasks[t].kind), birth, FirstCall(s.db.tasks[t].kind))
    ensures n.db == SetTask(s.db, t, IN_PROGRESS)
  {
    var m := Apply(cfg, s, Claim(0, t, {}));
    LeadsOn(cfg, es, s, Claim(0, t, {}));
    Fetches(cfg, s, d, birth, t);
    LeadsOn(cfg, es + [Claim(0, t, {})], m, RETURNED);
    n := Apply(cfg, m, RETURNED);
    assert es + [Claim(0, t, {}), RETURNED] == es + [Claim(0, t, {})] + [RETURNED];
  }

  lemma Fetches(cfg: Config, s: State, d: Id, birth: Birth, t: TaskId)
    requires Lone(s, d, birth, Draining) && Claimable(s.db, t, {}) && s.db.tasks[t].deployment == d
    ensures var m := Apply(cfg, s, Claim(0, t, {}));
      Enabled(m, RETURNED) && InTurn(m, RETURNED)
      && var n := Apply(cfg, m, RETURNED);
         Working(n, Job(t, d, s.db.tasks[t].kind), birth, FirstCall(s.db.tasks[t].kind)) && n.db == SetTask(s.db, t, IN_PROGRESS)
  {
  }

  function StatusAfter(call: Call, status: Status): Status
  {
    match call
    case MarkDeploying => DEPLOYING
    case MarkActive => ACTIVE
    case MarkDeleting => DELETING
    case MarkDeleted => DELETED
    case _ => status
  }

  /** The next call returns. */
  lemma Returned(cfg: Config, es: seq<Event>, s: State, job: Job, birth: Birth, call: Call) returns (n: State)
    requires LeadsTo(cfg, es, s) && Working(s, job, birth, call) && call != MarkCompleted
    ensures LeadsTo(cfg, es + [RETURNED], n) && Working(n, job, birth, NextCall(Spec(birth, false), call))
    ensures n.db.tasks == s.db.tasks && n.db.nextTask == s.db.nextTask
    ensures n.db.deployments[job.deployment].status == StatusAfter(call, s.db.deployments[job.deployment].status)
  {
    LeadsOn(cfg, es, s, RETURNED);
    n := Apply(cfg, s, RETURNED);
  }

  lemma Completed(cfg: Config, es: seq<Event>, s: State, job: Job, birth: Birth) returns (n: State)
    requires LeadsTo(cfg, es, s) && Working(s, job, birth, MarkCompleted)
    ensures LeadsTo(cfg, es + [RETURNED], n) && Lone(n, job.deployment, birth, Draining)
    ensures n.db == SetTask(s.db, job.task, COMPLETED)
  {
    LeadsOn(cfg, es, s, RETURNED);
    n := Apply(cfg, s, RETURNED);
  }

  /** Calls left after this one. */
  function CallsLeft(call: Call): nat
  {
    match call
    case MarkDeploying => 7
    case ApplySecret => 6
    case ApplyDeployment => 5
    case ApplyService => 4
    case AwaitAvailable => 3
    case AwaitReady => 2
    case MarkActive => 1
    case MarkDeleting => 5
    case DropDeployment => 4
    case DropService => 3
    case DropSecret => 2
    case MarkDeleted => 1
    case MarkCompleted => 0
  }

  /** What the last mark of a job says. */
  function EndStatus(call: Call, status: Status): Status
  {
    if call == MarkCompleted then status else if DeployCall(call) then ACTIVE else DELETED
  }

  lemma NextEnds(spec: Spec, call: Call, status: Status)
    requires call != MarkCompleted
    ensures CallsLeft(NextCall(spec, call)) < CallsLeft(call)
    ensures EndStatus(NextCall(spec, call), StatusAfter(call, status)) == EndStatus(call, status)
  {
  }

  /** All calls return until the task is completed. */
  lemma {:induction false} Finishes(cfg: Config, es: seq<Event>, s: State, job: Job, birth: Birth, call: Call)
    returns (more: seq<Event>, n: State)
    requires LeadsTo(cfg, es, s) && Working(s, job, birth, call)
    ensures LeadsTo(cfg, es + more, n) && Lone(n, job.deployment, birth, Draining)
    ensures n.db.tasks == SetTask(s.db, job.task, COMPLETED).tasks
    ensures n.db.deployments[job.deployment].status == EndStatus(call, s.db.deployments[job.deployment].status)
    decreases CallsLeft(call)
  {
    if call == MarkCompleted {
      more := [RETURNED];
      n := Completed(cfg, es, s, job, birth);
    } else {
      var m := Returned(cfg, es, s, job, birth, call);
      NextEnds(Spec(birth, false), call, s.db.deployments[job.deployment].status);
      more, n := Finishes(cfg, es + [RETURNED], m, job, birth, NextCall(Spec(birth, false), call));
      assert es + ([RETURNED] + more) == es + [RETURNED] + more;
      more := [RETURNED] + more;
    }
  }

  /** A deletion is requested, whatever the worker does. */
  lemma Requesting(cfg: Config, es: seq<Event>, s: State, d: Id, birth: Birth, pc: Pc, at: nat) returns (n: State)
    requires LeadsTo(cfg, es, s) && Lone(s, d, birth, pc) && s.db.deployments[d].status != DELETED
    requires s.db.tasks.Keys == {0} && s.db.nextTask == 1 && s.db.tasks[0].createdAt <= at
    ensures LeadsTo(cfg, es + [RequestDelete(d, at)], n) && Lone(n, d, birth, pc)
    ensures n.db.deployments[d].status == DELETING && n.db.tasks == s.db.tasks[1 := Task(d, DELETE, TASK_PENDING, at)]
  {
    LeadsOn(cfg, es, s, RequestDelete(d, at));
    n := Apply(cfg, s, RequestDelete(d, at));
    assert n.workers == s.workers;
  }

  // ---- ACTIVE in between ------------------------------------------------------------

  /** Four calls return that change the cluster or wait for it, and then the row is marked ACTIVE. */
  lemma ThenActive(cfg: Config, es: seq<Event>, s: State, job: Job, birth: Birth, call: Call) returns (more: seq<Event>, n: State)
    requires LeadsTo(cfg, es, s) && Working(s, job, birth, call)
    requires call in {ApplyDeployment, ApplyService, AwaitAvailable, AwaitReady, MarkActive}
    ensures LeadsTo(cfg, es + more, n) && n.db.tasks == s.db.tasks
    ensures job.deployment in n.db.deployments && n.db.deployments[job.deployment].status == ACTIVE
    decreases CallsLeft(call)
  {
    var m := Returned(cfg, es, s, job, birth, call);
    if call == MarkActive {
      more, n := [RETURNED], m;
    } else {
      more, n := ThenActive(cfg, es + [RETURNED], m, job, birth, NextCall(Spec(birth, false), call));
      assert es + ([RETURNED] + more) == es + [RETURNED] + more;
      more := [RETURNED] + more;
    }
  }

  /** A deletion is requested while the worker deploys, and what follows it. */
  lemma Overwritten(cfg: Config, es: seq<Event>, s: State, job: Job, birth: Birth, at: nat) returns (after: seq<Event>, n: State)
    requires LeadsTo(cfg, es, s) && Working(s, job, birth, ApplyDeployment) && s.db.deployments[job.deployment].status != DELETED
    requires s.db.tasks.Keys == {0} && s.db.nextTask == 1 && s.db.tasks[0].createdAt <= at
    ensures LeadsTo(cfg, es + ([RequestDelete(job.deployment, at)] + after), n) && job.deployment in n.db.deployments
    ensures n.db.deployments[job.deployment].status == ACTIVE && Requested(n.db, job.deployment)
  {
    var d := job.deployment;
    var m := Requesting(cfg, es, s, d, birth, Running(job, Spec(birth, false), ApplyDeployment), at);
    after, n := ThenActive(cfg, es + [RequestDelete(d, at)], m, job, birth, ApplyDeployment);
    assert es + ([RequestDelete(d, at)] + after) == es + [RequestDelete(d, at)] + after;
    assert n.db.tasks[1] == Task(d, DELETE, TASK_PENDING, at);
  }

  /** For every deployment there is a run, with one worker, in which a deletion is requested while
      the worker deploys, and marking the deployment ACTIVE overwrites it: the row says ACTIVE while
      the DELETE task still waits. */
  lemma ActiveOverwritesDeleting(cfg: Config, d: Id, birth: Birth, at: nat, later: nat)
    returns (before: seq<Event>, after: seq<Event>, s: State, n: State)
    requires at <= later
    ensures LeadsTo(cfg, before, s) && DeployTaken(s.db, d, 0) && d in s.db.deployments && s.db.deployments[d].status == DEPLOYING
    ensures LeadsTo(cfg, before + ([RequestDelete(d, later)] + after), n)
    ensures d in n.db.deployments && n.db.deployments[d].status == ACTIVE && Requested(n.db, d)
  {
    before, s := Created(cfg, d, birth, at);
    s := Takes(cfg, before, s, d, birth, 0);
    before := before + [Claim(0, 0, {}), RETURNED];
    s := Returned(cfg, before, s, Job(0, d, DEPLOY), birth, MarkDeploying);
    before := before + [RETURNED];
    after, n := Overwritten(cfg, before, s, Job(0, d, DEPLOY), birth, later);
  }

  // ---- equal dates ------------------------------------------------------------------

  /** The worker takes a task and completes it. */
  lemma TakesAndFinishes(cfg: Config, es: seq<Event>, s: State, d: Id, birth: Birth, t: TaskId) returns (more: seq<Event>, n: State)
    requires LeadsTo(cfg, es, s) && Lone(s, d, birth, Draining) && Claimable(s.db, t, {}) && s.db.tasks[t].deployment == d
    ensures LeadsTo(cfg, es + more, n) && Lone(n, d, birth, Draining)
    ensures n.db.tasks == s.db.tasks[t := s.db.tasks[t].(status := COMPLETED)]
    ensures n.db.deployments[d].status == if s.db.tasks[t].kind == DEPLOY then ACTIVE else DELETED
  {
    var kind, begins := s.db.tasks[t].kind, [Claim(0, t, {}), RETURNED];
    var m := Takes(cfg, es, s, d, birth, t);
    more, n := Finishes(cfg, es + begins, m, Job(t, d, kind), birth, FirstCall(kind));
    assert es + (begins + more) == es + begins + more;
    more := begins + more;
  }

  /** A DELETE task and a DEPLOY task of one date are taken in this order and completed. */
  lemma DeletesThenDeploys(cfg: Config, es: seq<Event>, s: State, d: Id, birth: Birth, at: nat) returns (more: seq<Event>, n: State)
    requires LeadsTo(cfg, es, s) && Lone(s, d, birth, Draining)
    requires s.db.tasks == map[0 := Task(d, DEPLOY, TASK_PENDING, at), 1 := Task(d, DELETE, TASK_PENDING, at)]
    ensures LeadsTo(cfg, es + more, n) && Lone(n, d, birth, Draining) && n.db.deployments[d].status == ACTIVE
    ensures forall t | t in n.db.tasks :: !IsPending(n.db, t)
  {
    var first, m := TakesAndFinishes(cfg, es, s, d, birth, 1);
    var second;
    second, n := TakesAndFinishes(cfg, es + first, m, d, birth, 0);
    more := first + second;
    assert es + more == es + first + second;
  }

  lemma ActiveAtLast(cfg: Config, es: seq<Event>, n: State, d: Id, birth: Birth)
    requires LeadsTo(cfg, es, n) && Lone(n, d, birth, Draining) && n.db.deployments[d].status == ACTIVE
    requires forall t | t in n.db.tasks :: !IsPending(n.db, t)
    ensures Enabled(n, FindNone(0, {})) && Present(n.cluster, birth.slug, d)
  {
    ActiveRuns(cfg, es, d);
  }

  /** With equal dates the claim may take the deletion first: for every deployment there is a run, with
      one worker, in which a deletion is requested at the date of the waiting DEPLOY task, both tasks
      are completed, and the deployment is ACTIVE with its workload and service in the cluster. */
  lemma EqualDatesDeploy(cfg: Config, d: Id, birth: Birth, at: nat)
    returns (before: seq<Event>, after: seq<Event>, s: State, n: State)
    ensures LeadsTo(cfg, before, s) && DeployWaits(s.db, d, 0) && s.db.tasks[0].createdAt == at
    ensures LeadsTo(cfg, before + ([RequestDelete(d, at)] + after), n) && Enabled(n, FindNone(0, {}))
    ensures d in n.db.deployments && n.db.deployments[d].status == ACTIVE && Present(n.cluster, birth.slug, d)
  {
    before, s := Created(cfg, d, birth, at);
    var m := Requesting(cfg, before, s, d, birth, Draining, at);
    after, n := DeletesThenDeploys(cfg, before + [RequestDelete(d, at)], m, d, birth, at);
    assert before + ([RequestDelete(d, at)] + after) == before + [RequestDelete(d, at)] + after;
    ActiveAtLast(cfg, before + ([RequestDelete(d, at)] + after), n, d, birth);
  }
}
