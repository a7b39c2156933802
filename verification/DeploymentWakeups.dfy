/** No lost wakeups: a registered worker never sleeps through a task inserted after it registered. */
module DeploymentWakeups {
  import opened OrderedDict
  import opened Deployments

  /** A task the worker should hear of: inserted after it registered, and still waiting. */
  predicate Due(db: Database, k: Worker, t: TaskId)
  {
    k.listening && IsPending(db, t) && t >= k.since
  }

  /** The worker has not seen the queue empty since the last insertion, or a notification is on
      its way to tell it. */
  predicate Awake(k: Worker)
  {
    k.pc == Draining || k.pc.HasJob() || k.transit + k.queue > 0
  }

  ghost predicate WakeInv(s: State, w: WorkerId, t: TaskId)
  {
    && (forall u | u in s.db.tasks :: u < s.db.nextTask)
    && (w in s.workers ==>
          && (s.workers[w].pc == Connecting ==> !s.workers[w].listening)
          && (Due(s.db, s.workers[w], t) ==> Awake(s.workers[w])))
  }

  /** The event is not this worker taking the queue for empty because another has locked this task. */
  predicate SeenBy(e: Event, w: WorkerId, t: TaskId)
  {
    e.FindNone? && e.w == w ==> t !in e.locked
  }

  lemma TasksNumbered(cfg: Config, s: State, e: Event)
    requires Enabled(s, e) && forall t | t in s.db.tasks :: t < s.db.nextTask
    ensures forall t | t in Apply(cfg, s, e).db.tasks :: t < Apply(cfg, s, e).db.nextTask
  {
  }

  /** Tasks become pending only when they are inserted, and then every listener is notified. */
  lemma NewlyPending(cfg: Config, s: State, e: Event, w: WorkerId, t: TaskId)
    requires Enabled(s, e) && w in s.workers && w in Apply(cfg, s, e).workers
    requires IsPending(Apply(cfg, s, e).db, t) && !IsPending(s.db, t)
    ensures Apply(cfg, s, e).workers[w] == Notified(s.workers[w])
  {
  }

  lemma KeepsAwake(cfg: Config, s: State, e: Event, w: WorkerId, t: TaskId)
    requires Enabled(s, e) && WakeInv(s, w, t) && SeenBy(e, w, t)
    requires w in Apply(cfg, s, e).workers && Due(Apply(cfg, s, e).db, Apply(cfg, s, e).workers[w], t)
    ensures Awake(Apply(cfg, s, e).workers[w])
  {
    var n := Apply(cfg, s, e);
    if w in s.workers && !(e.Register? && e.w == w) {
      if !IsPending(s.db, t) {
        NewlyPending(cfg, s, e, w, t);
      } else {
        assert Due(s.db, s.workers[w], t);
        StaysAwake(cfg, s, e, w, t);
      }
    } else if w in s.workers {
      assert t < s.db.nextTask;
    }
  }

  lemma StaysAwake(cfg: Config, s: State, e: Event, w: WorkerId, t: TaskId)
    requires Enabled(s, e) && w in s.workers && Awake(s.workers[w]) && IsPending(s.db, t) && SeenBy(e, w, t)
    requires w in Apply(cfg, s, e).workers
    ensures Awake(Apply(cfg, s, e).workers[w])
  {
  }

  lemma {:induction false} RunKeepsAwake(cfg: Config, s: State, es: seq<Event>, w: WorkerId, t: TaskId)
    requires Legal(cfg, s, es) && WakeInv(s, w, t) && forall e | e in es :: SeenBy(e, w, t)
    ensures WakeInv(Run(cfg, s, es), w, t)
    decreases |es|
  {
    if es != [] {
      var n := Apply(cfg, s, es[0]);
      assert es[0] in es && forall e | e in es[1..] :: e in es;
      if w in n.workers && Due(n.db, n.workers[w], t) {
        KeepsAwake(cfg, s, es[0], w, t);
      }
      TasksNumbered(cfg, s, es[0]);
      KeepsConnecting(cfg, s, es[0], w, t);
      RunKeepsAwake(cfg, n, es[1..], w, t);
    }
  }

  lemma KeepsConnecting(cfg: Config, s: State, e: Event, w: WorkerId, t: TaskId)
    requires Enabled(s, e) && WakeInv(s, w, t)
    ensures var n := Apply(cfg, s, e); w in n.workers && n.workers[w].pc == Connecting ==> !n.workers[w].listening
  {
  }

  /** In every run, with any number of workers: while a task inserted after a worker registered is
      pending, the worker is draining or working, or a notification is under way to it or in its
      queue, unless the worker once found the queue empty because another had locked that very task. */
  lemma NoLostWakeup(cfg: Config, es: seq<Event>, w: WorkerId, t: TaskId)
    requires Legal(cfg, INITIAL, es) && forall e | e in es :: SeenBy(e, w, t)
    requires w in Run(cfg, INITIAL, es).workers
    requires Due(Run(cfg, INITIAL, es).db, Run(cfg, INITIAL, es).workers[w], t)
    ensures Awake(Run(cfg, INITIAL, es).workers[w])
  {
    RunKeepsAwake(cfg, INITIAL, es, w, t);
  }

  /** An awake worker has a next step of its own. */
  lemma AwakeWorkersMove(s: State, w: WorkerId)
    requires w in s.workers && Awake(s.workers[w])
    requires s.workers[w].pc != Connecting
    ensures exists e :: Enabled(s, e) && (e.Claim? || e.FindNone? || e.Call? || e.Deliver? || e.Wake?) && e.w == w
  {
    var k := s.workers[w];
    if k.pc == Draining {
      DrainingMoves(s, w);
    } else if k.pc.HasJob() {
      if k.pc.Fetching? || k.pc.Running? {
        assert Enabled(s, Call(w, Raises, false));
      } else {
        assert Enabled(s, Call(w, Returns, false));
      }
    } else if k.transit > 0 {
      assert Enabled(s, Deliver(w));
    } else {
      assert Enabled(s, Wake(w));
    }
  }

  function PendingTasks(db: Database): set<TaskId>
  {
    set t | t in db.tasks && IsPending(db, t)
  }

  /** Among finitely many tasks one is the oldest. */
  lemma {:induction false} Oldest(db: Database, ts: set<TaskId>) returns (t: TaskId)
    requires ts != {} && ts <= db.tasks.Keys
    ensures t in ts && forall u | u in ts :: db.tasks[t].createdAt <= db.tasks[u].createdAt
    decreases |ts|
  {
    var x :| x in ts;
    if ts == {x} {
      t := x;
    } else {
      var u := Oldest(db, ts - {x});
      t := if db.tasks[u].createdAt < db.tasks[x].createdAt then u else x;
      forall v | v in ts
        ensures db.tasks[t].createdAt <= db.tasks[v].createdAt
      {
        assert v == x || v in ts - {x};
      }
    }
  }

  lemma DrainingMoves(s: State, w: WorkerId)
    requires At(s, w, Draining)
    ensures exists e :: Enabled(s, e) && (e.Claim? || e.FindNone?) && e.w == w
  {
    assert forall t | t in s.db.tasks && IsPending(s.db, t) :: t in PendingTasks(s.db);
    if PendingTasks(s.db) == {} {
      assert Enabled(s, FindNone(w, {}));
    } else {
      var t := Oldest(s.db, PendingTasks(s.db));
      assert Claimable(s.db, t, {});
      assert Enabled(s, Claim(w, t, {}));
    }
  }

  /** After starting and finding nothing, a worker is about to register. */
  lemma FirstDrain(cfg: Config, w: WorkerId)
    ensures Enabled(INITIAL, Start(w))
    ensures var s := Apply(cfg, INITIAL, Start(w));
      Enabled(s, FindNone(w, {}))
      && Apply(cfg, s, FindNone(w, {})) == INITIAL.(workers := map[w := Worker(Connecting, false, 0, 0, 0)])
  {
    var s := Apply(cfg, INITIAL, Start(w));
    assert s.workers == map[w := Worker(Draining, false, 0, 0, 0)];
  }

  /** A request then, and the registration after it. */
  lemma RequestInGap(cfg: Config, w: WorkerId, s: State, birth: Birth, id: Id, at: nat)
    requires s == INITIAL.(workers := map[w := Worker(Connecting, false, 0, 0, 0)])
    ensures Enabled(s, Create(id, birth, at))
    ensures var n := Apply(cfg, s, Create(id, birth, at));
      Enabled(n, Register(w)) && IsPending(n.db, 0)
      && Apply(cfg, n, Register(w)).db == n.db
      && Apply(cfg, n, Register(w)).workers == map[w := Worker(Idle, true, 1, 0, 0)]
  {
    var n := Apply(cfg, s, Create(id, birth, at));
    assert n.workers == s.workers;
  }

  /** The events that are no step of a registered worker or its notifications. */
  predicate FromOutside(e: Event) { e.Create? || e.RequestDelete? || e.Purge? || e.Start? || e.Crash? }

  lemma OnlyOthersMove(s: State, w: WorkerId)
    requires s.workers == map[w := Worker(Idle, true, 1, 0, 0)]
    ensures forall e | Enabled(s, e) :: FromOutside(e)
  {
  }

  /** The time between the first drain and the registration is a gap: a task inserted then waits,
      the worker is idle, and nothing is under way to wake it. */
  lemma GapBeforeRegistration(cfg: Config, birth: Birth, id: Id, at: nat)
    ensures var es := [Start(0), FindNone(0, {}), Create(id, birth, at), Register(0)];
      Legal(cfg, INITIAL, es)
      && var s := Run(cfg, INITIAL, es);
         IsPending(s.db, 0) && At(s, 0, Idle) && !Awake(s.workers[0]) && forall e | Enabled(s, e) :: FromOutside(e)
  {
    FirstDrain(cfg, 0);
    var s := INITIAL.(workers := map[0 := Worker(Connecting, false, 0, 0, 0)]);
    RequestInGap(cfg, 0, s, birth, id, at);
    RunFour(cfg, INITIAL, Start(0), FindNone(0, {}), Create(id, birth, at), Register(0));
    OnlyOthersMove(Apply(cfg, Apply(cfg, s, Create(id, birth, at)), Register(0)), 0);
  }

  lemma RunFour(cfg: Config, s: State, a: Event, b: Event, c: Event, d: Event)
    requires Enabled(s, a) && Enabled(Apply(cfg, s, a), b) && Enabled(Apply(cfg, Apply(cfg, s, a), b), c)
    requires Enabled(Apply(cfg, Apply(cfg, Apply(cfg, s, a), b), c), d)
    ensures Legal(cfg, s, [a, b, c, d])
    ensures Run(cfg, s, [a, b, c, d]) == Apply(cfg, Apply(cfg, Apply(cfg, Apply(cfg, s, a), b), c), d)
  {
    var s1 := Apply(cfg, s, a);
    var s2 := Apply(cfg, s1, b);
    var s3 := Apply(cfg, s2, c);
    RunCons(cfg, s3, d, []);
    RunCons(cfg, s2, c, [d]);
    RunCons(cfg, s1, b, [c, d]);
    RunCons(cfg, s, a, [b, c, d]);
    assert [d] == [d] + [] && [c, d] == [c] + [d] && [b, c, d] == [b] + [c, d] && [a, b, c, d] == [a] + [b, c, d];
  }

  lemma RunCons(cfg: Config, s: State, e: Event, es: seq<Event>)
    requires Enabled(s, e) && Legal(cfg, Apply(cfg, s, e), es)
    ensures Legal(cfg, s, [e] + es) && Run(cfg, s, [e] + es) == Run(cfg, Apply(cfg, s, e), es)
  {
    assert ([e] + es)[1..] == es;
  }

  // ---- the gap in every run ---------------------------------------------------------

  /** A worker that has not registered gets no notifications. */
  predicate Unheard(s: State, w: WorkerId)
  {
    w in s.workers ==>
      && (s.workers[w].pc == Connecting ==> !s.workers[w].listening)
      && (!s.workers[w].listening ==> s.workers[w].transit == 0 && s.workers[w].queue == 0 && s.workers[w].pc != Idle)
  }

  lemma KeepsUnheard(cfg: Config, s: State, e: Event, w: WorkerId)
    requires Enabled(s, e) && Unheard(s, w)
    ensures Unheard(Apply(cfg, s, e), w)
  {
  }

  lemma {:induction false} RunKeepsUnheard(cfg: Config, s: State, es: seq<Event>, w: WorkerId)
    requires Legal(cfg, s, es) && Unheard(s, w)
    ensures Unheard(Run(cfg, s, es), w)
    decreases |es|
  {
    if es != [] {
      KeepsUnheard(cfg, s, es[0], w);
      RunKeepsUnheard(cfg, Apply(cfg, s, es[0]), es[1..], w);
    }
  }

  lemma {:induction false} RunGrows(cfg: Config, s: State, es: seq<Event>)
    requires Legal(cfg, s, es)
    ensures s.db.nextTask <= Run(cfg, s, es).db.nextTask
    decreases |es|
  {
    if es != [] {
      RunGrows(cfg, Apply(cfg, s, es[0]), es[1..]);
    }
  }

  /** The worker waits for a notification, and none is on its way. */
  predicate Asleep(s: State, w: WorkerId, since: TaskId)
  {
    w in s.workers && s.workers[w] == Worker(Idle, true, since, 0, 0)
  }

  lemma SleepsOn(cfg: Config, s: State, e: Event, w: WorkerId, since: TaskId)
    requires Enabled(s, e) && Asleep(s, w, since) && e != Crash(w) && Apply(cfg, s, e).db.nextTask == s.db.nextTask
    ensures Asleep(Apply(cfg, s, e), w, since)
  {
  }

  /** Nothing inserted: no task was added. */
  lemma {:induction false} SleepsThrough(cfg: Config, s: State, es: seq<Event>, w: WorkerId, since: TaskId)
    requires Legal(cfg, s, es) && Asleep(s, w, since) && Crash(w) !in es && Run(cfg, s, es).db.nextTask == s.db.nextTask
    ensures Asleep(Run(cfg, s, es), w, since)
    decreases |es|
  {
    if es != [] {
      var n := Apply(cfg, s, es[0]);
      RunGrows(cfg, n, es[1..]);
      StepGrows(cfg, s, es[0]);
      SleepsOn(cfg, s, es[0], w, since);
      SleepsThrough(cfg, n, es[1..], w, since);
    }
  }

  lemma StepGrows(cfg: Config, s: State, e: Event)
    requires Enabled(s, e)
    ensures s.db.nextTask <= Apply(cfg, s, e).db.nextTask
  {
  }

  /** Steps of a worker's own, and the arrival of its notifications. */
  predicate OwnStep(e: Event, w: WorkerId)
  {
    (e.Claim? || e.FindNone? || e.Call? || e.Register? || e.Deliver? || e.Wake?) && e.w == w
  }

  /** In every run: a worker that registers while tasks wait sleeps from then on, with no step of its
      own to make, until the next task is inserted or it crashes. None of the waiting tasks wakes it. */
  lemma RegisteringSleeps(cfg: Config, es: seq<Event>, w: WorkerId, more: seq<Event>)
    requires Legal(cfg, INITIAL, es) && At(Run(cfg, INITIAL, es), w, Connecting)
    requires var s := Apply(cfg, Run(cfg, INITIAL, es), Register(w));
      Legal(cfg, s, more) && Crash(w) !in more && Run(cfg, s, more).db.nextTask == s.db.nextTask
    ensures var s := Run(cfg, INITIAL, es);
      var n := Apply(cfg, s, Register(w));
      && n.db == s.db && Asleep(n, w, s.db.nextTask)
      && Asleep(Run(cfg, n, more), w, s.db.nextTask)
      && forall e | Enabled(Run(cfg, n, more), e) :: !OwnStep(e, w)
  {
    RunKeepsUnheard(cfg, INITIAL, es, w);
    var s := Run(cfg, INITIAL, es);
    SleepsThrough(cfg, Apply(cfg, s, Register(w)), more, w, s.db.nextTask);
  }
}
