/** The worker pool as a transition system: one step per critical section, the
    queue's condition variable as sleeping and woken workers. */
module ThreadPool {
  type TaskId = nat
  type Wid = nat

  /** Where a worker is: about to take the queue lock, blocked on the queue's
      condition variable, woken from it, executing a task, or gone. */
  datatype Worker = Ready | Asleep | Woken | Running(task: TaskId) | Exited

  /** The one thread that awaits a task: asleep, woken, or done with it. */
  datatype Awaiter = Sleeping | Roused | Returned

  type Workers = seq<Worker>

  /** Tasks are numbered in the order they are enqueued. `started` lists the
      tasks taken from the queue and `takers` who took them; `done` holds the
      results of completed tasks; `drained` what shutdown freed. */
  datatype Pool<R> = Pool(workers: Workers, queue: seq<TaskId>, shutdown: bool, freed: bool, spawned: nat,
                          started: seq<TaskId>, takers: seq<Wid>, done: map<TaskId, R>, awaits: map<TaskId, Awaiter>,
                          drained: seq<TaskId>)

  datatype Event =
    | Spawn(pick: Wid)
    | Enter(w: Wid)
    | Finish(w: Wid)
    | AwaitStart(t: TaskId)
    | AwaitResume(t: TaskId)
    | Shutdown
    | Spurious(w: Wid)
    | SpuriousAwait(t: TaskId)
    | Drain

  function New<R>(n: nat): Pool<R> {
    Pool(seq(n, _ => Ready), [], false, false, 0, [], [], map[], map[], [])
  }

  function AsleepWorkers(ws: Workers): set<Wid> {
    set w | 0 <= w < |ws| && ws[w] == Asleep
  }

  function WokenWorkers(ws: Workers): set<Wid> {
    set w | 0 <= w < |ws| && ws[w] == Woken
  }

  predicate AllExited(ws: Workers) {
    forall w :: 0 <= w < |ws| ==> ws[w] == Exited
  }

  // ---- steps ----

  /** Nobody is woken when nobody sleeps. */
  function Signal(ws: Workers, pick: Wid): (r: Workers)
    ensures |r| == |ws|
  {
    if pick < |ws| && ws[pick] == Asleep then ws[pick := Woken] else ws
  }

  function Broadcast(ws: Workers): (r: Workers)
    ensures |r| == |ws|
  {
    seq(|ws|, w requires 0 <= w < |ws| => if ws[w] == Asleep then Woken else ws[w])
  }

  function SpawnStep<R>(s: Pool<R>, pick: Wid): Pool<R> {
    s.(queue := s.queue + [s.spawned], spawned := s.spawned + 1, workers := Signal(s.workers, pick))
  }

  /** A worker holds the queue lock and tests its loop condition. */
  function EnterStep<R>(s: Pool<R>, w: Wid): Pool<R>
    requires w < |s.workers|
  {
    if s.queue == [] && !s.shutdown then s.(workers := s.workers[w := Asleep])
    else if s.queue == [] then s.(workers := s.workers[w := Exited])
    else
      s.(workers := s.workers[w := Running(s.queue[0])], queue := s.queue[1..], started := s.started + [s.queue[0]],
         takers := s.takers + [w])
  }

  /** The task has run; its result is stored and its awaiter signalled. */
  function FinishStep<R>(s: Pool<R>, run: TaskId -> R, w: Wid): Pool<R>
    requires w < |s.workers| && s.workers[w].Running?
  {
    var t := s.workers[w].task;
    s.(workers := s.workers[w := Ready], done := s.done[t := run(t)],
       awaits := if t in s.awaits && s.awaits[t] == Sleeping then s.awaits[t := Roused] else s.awaits)
  }

  /** Returns when the task is complete, otherwise sleeps. */
  function AwaitStep<R>(s: Pool<R>, t: TaskId): Pool<R> {
    s.(awaits := s.awaits[t := if t in s.done then Returned else Sleeping])
  }

  function ShutdownStep<R>(s: Pool<R>): Pool<R> {
    s.(shutdown := true, workers := Broadcast(s.workers))
  }

  /** After all workers were joined: what is left in the queue is freed. */
  function DrainStep<R>(s: Pool<R>): Pool<R> {
    s.(drained := s.queue, queue := [], freed := true)
  }

  predicate Enabled<R>(s: Pool<R>, e: Event) {
    match e
    case Spawn(pick) => !s.freed && (AsleepWorkers(s.workers) != {} ==> pick in AsleepWorkers(s.workers))
    case Enter(w) => w < |s.workers| && (s.workers[w] == Ready || s.workers[w] == Woken)
    case Finish(w) => w < |s.workers| && s.workers[w].Running?
    case AwaitStart(t) => t < s.spawned && t !in s.awaits
    case AwaitResume(t) => t in s.awaits && s.awaits[t] == Roused
    case Shutdown => !s.freed
    case Spurious(w) => w < |s.workers| && s.workers[w] == Asleep
    case SpuriousAwait(t) => t in s.awaits && s.awaits[t] == Sleeping
    case Drain => s.shutdown && !s.freed && AllExited(s.workers)
  }

  function Step<R>(s: Pool<R>, run: TaskId -> R, e: Event): Pool<R>
    requires Enabled(s, e)
  {
    match e
    case Spawn(pick) => SpawnStep(s, pick)
    case Enter(w) => EnterStep(s, w)
    case Finish(w) => FinishStep(s, run, w)
    case AwaitStart(t) => AwaitStep(s, t)
    case AwaitResume(t) => AwaitStep(s, t)
    case Shutdown => ShutdownStep(s)
    case Spurious(w) => s.(workers := s.workers[w := Woken])
    case SpuriousAwait(t) => s.(awaits := s.awaits[t := Roused])
    case Drain => DrainStep(s)
  }

  // ---- what every step keeps ----

  function Range(from: nat, n: nat): (r: seq<TaskId>)
    ensures |r| == n && forall i :: 0 <= i < n ==> r[i] == from + i
  {
    seq(n, i => from + i)
  }

  /** Tasks leave the queue in the order they entered it. */
  predicate InOrder<R>(s: Pool<R>) {
    && s.started == Range(0, |s.started|) && |s.takers| == |s.started| <= s.spawned
    && s.queue + s.drained == Range(|s.started|, s.spawned - |s.started|)
    && (s.queue == [] || s.drained == []) && (!s.freed ==> s.drained == [])
  }

  /** A started task is with the worker that took it, or complete with the
      value of its own function. */
  ghost predicate TaskOk<R>(s: Pool<R>, run: TaskId -> R, t: TaskId)
    requires t < |s.takers|
  {
    && s.takers[t] < |s.workers|
    && (if t in s.done then s.done[t] == run(t) else s.workers[s.takers[t]] == Running(t))
  }

  predicate WorkerOk<R>(s: Pool<R>, w: Wid)
    requires w < |s.workers|
  {
    match s.workers[w]
    case Running(t) => t < |s.takers| && s.takers[t] == w && t !in s.done
    case Asleep => !s.shutdown
    case Exited => s.shutdown
    case _ => true
  }

  predicate AwaitOk<R>(s: Pool<R>, t: TaskId)
    requires t in s.awaits
  {
    t < s.spawned && (s.awaits[t] == Sleeping ==> t !in s.done) && (s.awaits[t] == Returned ==> t in s.done)
  }

  ghost predicate Tasks<R>(s: Pool<R>, run: TaskId -> R) {
    && |s.takers| == |s.started|
    && (forall t {:trigger TaskOk(s, run, t)} :: 0 <= t < |s.takers| ==> TaskOk(s, run, t))
    && (forall t :: t in s.done ==> t < |s.takers|)
    && (forall w {:trigger WorkerOk(s, w)} :: 0 <= w < |s.workers| ==> WorkerOk(s, w))
  }

  predicate Awaits<R>(s: Pool<R>) {
    forall t {:trigger AwaitOk(s, t)} :: t in s.awaits ==> AwaitOk(s, t)
  }

  /** No task waits in the queue beyond what woken workers will take. */
  predicate WorkersWoken<R>(s: Pool<R>) {
    !s.shutdown && AsleepWorkers(s.workers) != {} ==> |s.queue| <= |WokenWorkers(s.workers)|
  }

  lemma RangeSnoc(from: nat, n: nat)
    ensures Range(from, n) + [from + n] == Range(from, n + 1)
  {
  }

  lemma RangeTail(from: nat, n: nat)
    requires n > 0
    ensures Range(from, n)[0] == from && Range(from, n)[1..] == Range(from + 1, n - 1)
  {
  }

  lemma OrderSpawn<R(!new)>(s: Pool<R>, pick: Wid)
    requires InOrder(s) && !s.freed
    ensures InOrder(SpawnStep(s, pick))
  {
    RangeSnoc(|s.started|, s.spawned - |s.started|);
    assert s.queue + [] == s.queue;
    assert s.queue + [s.spawned] + [] == s.queue + [s.spawned];
    hide Range;
  }

  lemma OrderEnter<R(!new)>(s: Pool<R>, w: Wid)
    requires InOrder(s) && w < |s.workers|
    ensures InOrder(EnterStep(s, w))
  {
    hide Range;
    if s.queue != [] {
      assert s.queue + [] == s.queue && s.queue[1..] + [] == s.queue[1..];
      RangeTail(|s.started|, s.spawned - |s.started|);
      RangeSnoc(0, |s.started|);
    }
  }

  lemma OrderKept<R(!new)>(s: Pool<R>, run: TaskId -> R, e: Event)
    requires InOrder(s) && Enabled(s, e)
    ensures InOrder(Step(s, run, e))
  {
    hide Range;
    hide EnterStep;
    match e
    case Spawn(pick) => OrderSpawn(s, pick);
    case Enter(w) => OrderEnter(s, w);
    case Drain =>
      assert s.queue + [] == [] + s.queue;
    case _ =>
  }

  /** A worker that is not running may change its place. */
  lemma TasksMove<R(!new)>(s: Pool<R>, run: TaskId -> R, w: Wid, place: Worker)
    requires Tasks(s, run) && w < |s.workers| && !s.workers[w].Running?
    requires place == (if s.shutdown then Exited else Asleep)
    ensures Tasks(s.(workers := s.workers[w := place]), run)
  {
    var s' := s.(workers := s.workers[w := place]);
    forall t {:trigger TaskOk(s', run, t)} | 0 <= t < |s'.takers|
      ensures TaskOk(s', run, t)
    {
      assert TaskOk(s, run, t);
    }
    forall v {:trigger WorkerOk(s', v)} | 0 <= v < |s'.workers|
      ensures WorkerOk(s', v)
    {
      assert WorkerOk(s, v);
    }
  }

  lemma TasksTake<R(!new)>(s: Pool<R>, run: TaskId -> R, w: Wid)
    requires Tasks(s, run) && w < |s.workers| && !s.workers[w].Running?
    requires s.queue != [] && s.queue[0] == |s.takers|
    ensures Tasks(EnterStep(s, w), run)
  {
    var s' := EnterStep(s, w);
    forall t {:trigger TaskOk(s', run, t)} | 0 <= t < |s'.takers|
      ensures TaskOk(s', run, t)
    {
      if t < |s.takers| {
        assert TaskOk(s, run, t);
      }
    }
    forall v {:trigger WorkerOk(s', v)} | 0 <= v < |s'.workers|
      ensures WorkerOk(s', v)
    {
      assert WorkerOk(s, v);
    }
  }

  lemma TasksEnter<R(!new)>(s: Pool<R>, run: TaskId -> R, w: Wid)
    requires InOrder(s) && Tasks(s, run) && Enabled(s, Enter(w))
    ensures Tasks(EnterStep(s, w), run)
  {
    if s.queue != [] {
      assert s.queue[0] == (s.queue + s.drained)[0] == |s.started|;
      TasksTake(s, run, w);
    } else {
      TasksMove(s, run, w, if s.shutdown then Exited else Asleep);
    }
  }

  lemma TasksFinish<R(!new)>(s: Pool<R>, run: TaskId -> R, w: Wid)
    requires Tasks(s, run) && Enabled(s, Finish(w))
    ensures Tasks(FinishStep(s, run, w), run)
  {
    var s' := FinishStep(s, run, w);
    assert WorkerOk(s, w);
    forall t {:trigger TaskOk(s', run, t)} | 0 <= t < |s'.takers|
      ensures TaskOk(s', run, t)
    {
      assert TaskOk(s, run, t);
    }
    forall v {:trigger WorkerOk(s', v)} | 0 <= v < |s'.workers|
      ensures WorkerOk(s', v)
    {
      assert WorkerOk(s, v);
    }
  }

  lemma TasksKept<R(!new)>(s: Pool<R>, run: TaskId -> R, e: Event)
    requires InOrder(s) && Tasks(s, run) && Enabled(s, e)
    ensures Tasks(Step(s, run, e), run)
  {
    var s' := Step(s, run, e);
    if e.Enter? {
      TasksEnter(s, run, e.w);
    } else if e.Finish? {
      TasksFinish(s, run, e.w);
    } else {
      forall t {:trigger TaskOk(s', run, t)} | 0 <= t < |s'.takers|
        ensures TaskOk(s', run, t)
      {
        assert TaskOk(s, run, t);
      }
      forall v {:trigger WorkerOk(s', v)} | 0 <= v < |s'.workers|
        ensures WorkerOk(s', v)
      {
        assert WorkerOk(s, v);
      }
    }
  }

  lemma AwaitsKept<R(!new)>(s: Pool<R>, run: TaskId -> R, e: Event)
    requires Awaits(s) && Enabled(s, e)
    ensures Awaits(Step(s, run, e))
  {
    var s' := Step(s, run, e);
    forall t {:trigger AwaitOk(s', t)} | t in s'.awaits
      ensures AwaitOk(s', t)
    {
      if t in s.awaits {
        assert AwaitOk(s, t);
      }
    }
  }

  // ---- wake-ups ----

  lemma SignalSets(ws: Workers, pick: Wid)
    requires AsleepWorkers(ws) != {} ==> pick in AsleepWorkers(ws)
    ensures AsleepWorkers(ws) == {} ==> AsleepWorkers(Signal(ws, pick)) == {}
    ensures AsleepWorkers(ws) != {} ==> |WokenWorkers(Signal(ws, pick))| == |WokenWorkers(ws)| + 1
  {
    if AsleepWorkers(ws) == {} {
      assert pick !in AsleepWorkers(ws);
    } else {
      assert WokenWorkers(Signal(ws, pick)) == WokenWorkers(ws) + {pick};
      assert pick !in WokenWorkers(ws);
    }
  }

  lemma AsleepMoved(ws: Workers, w: Wid, place: Worker)
    requires w < |ws| && ws[w] != Asleep && place != Asleep
    ensures AsleepWorkers(ws[w := place]) == AsleepWorkers(ws)
  {
  }

  lemma WokenMoved(ws: Workers, w: Wid, place: Worker)
    requires w < |ws| && place != Woken
    ensures WokenWorkers(ws[w := place]) == WokenWorkers(ws) - {w}
    ensures ws[w] != Woken ==> w !in WokenWorkers(ws)
  {
  }

  lemma MoveSets(ws: Workers, w: Wid, place: Worker)
    requires w < |ws| && ws[w] != Asleep && place != Woken
    ensures place != Asleep ==> AsleepWorkers(ws[w := place]) == AsleepWorkers(ws)
    ensures |WokenWorkers(ws[w := place])| >= |WokenWorkers(ws)| - 1
    ensures ws[w] != Woken ==> |WokenWorkers(ws[w := place])| == |WokenWorkers(ws)|
  {
    if place != Asleep {
      AsleepMoved(ws, w, place);
    }
    WokenMoved(ws, w, place);
    hide AsleepWorkers;
    hide WokenWorkers;
    if w !in WokenWorkers(ws) {
      assert WokenWorkers(ws) - {w} == WokenWorkers(ws);
    }
  }

  lemma SpuriousSets(ws: Workers, w: Wid)
    requires w < |ws| && ws[w] == Asleep
    ensures AsleepWorkers(ws) != {} && |WokenWorkers(ws[w := Woken])| >= |WokenWorkers(ws)|
  {
    assert w in AsleepWorkers(ws);
    assert WokenWorkers(ws[w := Woken]) == WokenWorkers(ws) + {w};
  }

  lemma WokenEnter<R(!new)>(s: Pool<R>, w: Wid)
    requires WorkersWoken(s) && Enabled(s, Enter(w))
    ensures WorkersWoken(EnterStep(s, w))
  {
    if s.queue == [] {
      var s' := EnterStep(s, w);
      assert s'.queue == [];
    } else {
      MoveSets(s.workers, w, Running(s.queue[0]));
      hide AsleepWorkers;
      hide WokenWorkers;
    }
  }

  lemma WokenSpawn<R(!new)>(s: Pool<R>, pick: Wid)
    requires WorkersWoken(s) && Enabled(s, Spawn(pick))
    ensures WorkersWoken(SpawnStep(s, pick))
  {
    SignalSets(s.workers, pick);
    hide Signal;
    hide AsleepWorkers;
    hide WokenWorkers;
  }

  lemma WokenFinish<R(!new)>(s: Pool<R>, run: TaskId -> R, w: Wid)
    requires WorkersWoken(s) && Enabled(s, Finish(w))
    ensures WorkersWoken(FinishStep(s, run, w))
  {
    MoveSets(s.workers, w, Ready);
    hide AsleepWorkers;
    hide WokenWorkers;
  }

  lemma WokenKept<R(!new)>(s: Pool<R>, run: TaskId -> R, e: Event)
    requires WorkersWoken(s) && Enabled(s, e)
    ensures WorkersWoken(Step(s, run, e))
  {
    if e.Spawn? {
      WokenSpawn(s, e.pick);
    } else if e.Enter? {
      WokenEnter(s, e.w);
    } else if e.Finish? {
      WokenFinish(s, run, e.w);
    } else if e.Spurious? {
      SpuriousSets(s.workers, e.w);
      assert WorkersWoken(Step(s, run, e));
    } else if e.Shutdown? || e.Drain? {
      assert Step(s, run, e).shutdown;
    } else {
      assert Step(s, run, e).workers == s.workers;
    }
  }

  // ---- runs ----

  ghost predicate Inv<R(!new)>(s: Pool<R>, run: TaskId -> R) {
    InOrder(s) && Tasks(s, run) && Awaits(s) && WorkersWoken(s)
  }

  ghost predicate Run<R(!new)>(s: Pool<R>, run: TaskId -> R, events: seq<Event>, s': Pool<R>)
    decreases |events|
  {
    if events == [] then s' == s
    else Enabled(s, events[0]) && Run(Step(s, run, events[0]), run, events[1..], s')
  }

  lemma NewInv<R(!new)>(n: nat, run: TaskId -> R)
    ensures Inv(New<R>(n), run)
  {
    var s := New<R>(n);
    forall w | 0 <= w < |s.workers|
      ensures WorkerOk(s, w)
    {
    }
    assert AsleepWorkers(s.workers) == {};
    assert s.started == Range(0, 0) && s.queue + s.drained == Range(0, 0);
  }

  lemma {:induction false} RunKeeps<R(!new)>(s: Pool<R>, run: TaskId -> R, events: seq<Event>, s': Pool<R>)
    requires Inv(s, run) && Run(s, run, events, s')
    ensures Inv(s', run)
    decreases |events|
  {
    if events != [] {
      var e := events[0];
      OrderKept(s, run, e);
      TasksKept(s, run, e);
      AwaitsKept(s, run, e);
      WokenKept(s, run, e);
      hide InOrder;
      hide Tasks;
      hide Awaits;
      hide WorkersWoken;
      hide Step;
      RunKeeps(Step(s, run, e), run, events[1..], s');
    }
  }

  /** MAIN RESULT. In every interleaving tasks are started in the order they
      were enqueued, each at most once and by one worker, a completed task has
      the value of its own function, and a queued task has a worker on its way
      while workers sleep. */
  lemma PoolSafe<R(!new)>(n: nat, run: TaskId -> R, events: seq<Event>, s: Pool<R>)
    requires Run(New<R>(n), run, events, s)
    ensures s.started == Range(0, |s.started|) && |s.started| <= s.spawned
    ensures forall t :: t in s.done ==> t in s.started && s.done[t] == run(t)
    ensures forall t :: t in s.started && t !in s.done ==> RunsOnOne(s, t)
    ensures WorkersWoken(s)
    ensures forall t :: t in s.awaits && s.awaits[t] == Sleeping ==> t !in s.done
  {
    NewInv(n, run);
    RunKeeps(New<R>(n), run, events, s);
    hide Run;
    hide WorkersWoken;
    forall t | t in s.done
      ensures t in s.started && s.done[t] == run(t)
    {
      assert TaskOk(s, run, t);
      assert s.started[t] == t;
    }
    forall t | t in s.started && t !in s.done
      ensures RunsOnOne(s, t)
    {
      assert TaskOk(s, run, t);
      forall w | 0 <= w < |s.workers| && s.workers[w] == Running(t)
        ensures w == s.takers[t]
      {
        assert WorkerOk(s, w);
      }
    }
    forall t | t in s.awaits && s.awaits[t] == Sleeping
      ensures t !in s.done
    {
      assert AwaitOk(s, t);
    }
  }

  /** Exactly one worker runs the task. */
  ghost predicate RunsOnOne<R>(s: Pool<R>, t: TaskId) {
    exists w :: 0 <= w < |s.workers| && s.workers[w] == Running(t) &&
      forall v :: 0 <= v < |s.workers| && s.workers[v] == Running(t) ==> v == w
  }

  /** An await that returns returns the value of its own task; it returns
      exactly when the task is complete. */
  lemma AwaitOwnResult<R(!new)>(s: Pool<R>, run: TaskId -> R, e: Event)
    requires Inv(s, run) && Enabled(s, e) && (e.AwaitStart? || e.AwaitResume?)
    ensures Step(s, run, e).awaits[e.t] == Returned <==> e.t in s.done
    ensures e.t in s.done ==> s.done[e.t] == run(e.t)
  {
    if e.t in s.done {
      assert TaskOk(s, run, e.t);
    }
  }

  // ---- shutdown ----

  /** No task is enqueued once every worker is gone. */
  predicate NotTooLate<R>(s: Pool<R>, e: Event) {
    e.Spawn? ==> !AllExited(s.workers)
  }

  ghost predicate TimelyRun<R(!new)>(s: Pool<R>, run: TaskId -> R, events: seq<Event>, s': Pool<R>)
    decreases |events|
  {
    if events == [] then s' == s
    else Enabled(s, events[0]) && NotTooLate(s, events[0]) && TimelyRun(Step(s, run, events[0]), run, events[1..], s')
  }

  /** When the last worker has left, the queue is empty. */
  predicate Emptied<R>(s: Pool<R>) {
    s.drained == [] && (AllExited(s.workers) ==> s.queue == [])
  }

  lemma EmptiedKept<R(!new)>(s: Pool<R>, run: TaskId -> R, e: Event)
    requires Emptied(s) && Enabled(s, e) && NotTooLate(s, e)
    ensures Emptied(Step(s, run, e))
  {
    var s' := Step(s, run, e);
    if AllExited(s'.workers) && !AllExited(s.workers) {
      var w :| 0 <= w < |s.workers| && s.workers[w] != Exited;
      assert s'.workers[w] == Exited;
    }
  }

  lemma {:induction false} TimelyRunEmpties<R(!new)>(s: Pool<R>, run: TaskId -> R, events: seq<Event>, s': Pool<R>)
    requires Emptied(s) && TimelyRun(s, run, events, s')
    ensures Emptied(s') && Run(s, run, events, s')
    decreases |events|
  {
    if events != [] {
      EmptiedKept(s, run, events[0]);
      hide Emptied;
      hide Step;
      TimelyRunEmpties(Step(s, run, events[0]), run, events[1..], s');
    }
  }

  /** MAIN RESULT. When no task is enqueued after the last worker left, then at
      the end of shutdown every task has been run exactly once and the final
      drain finds nothing. */
  lemma ShutdownRunsAll<R(!new)>(n: nat, run: TaskId -> R, events: seq<Event>, s: Pool<R>)
    requires n > 0 && TimelyRun(New<R>(n), run, events, s) && AllExited(s.workers)
    ensures s.queue == [] && s.drained == []
    ensures s.started == Range(0, s.spawned)
    ensures forall t :: 0 <= t < s.spawned ==> t in s.done && s.done[t] == run(t)
  {
    var s0 := New<R>(n);
    assert !AllExited(s0.workers) by {
      assert s0.workers[0] == Ready;
    }
    TimelyRunEmpties(s0, run, events, s);
    PoolSafe(n, run, events, s);
    NewInv(n, run);
    RunKeeps(s0, run, events, s);
    hide Run;
    hide TimelyRun;
    hide WorkersWoken;
    assert s.queue + s.drained == [];
    forall t | 0 <= t < s.spawned
      ensures t in s.done && s.done[t] == run(t)
    {
      assert TaskOk(s, run, t);
    }
  }

  /** Nothing is enqueued once shutdown has begun. */
  ghost predicate QuietRun<R(!new)>(s: Pool<R>, run: TaskId -> R, events: seq<Event>, s': Pool<R>)
    decreases |events|
  {
    if events == [] then s' == s
    else
      && Enabled(s, events[0]) && (s.shutdown ==> !events[0].Spawn?)
      && QuietRun(Step(s, run, events[0]), run, events[1..], s')
  }

  /** Workers leave only after shutdown has begun. */
  lemma {:induction false} QuietIsTimely<R(!new)>(s: Pool<R>, run: TaskId -> R, events: seq<Event>, s': Pool<R>)
    requires Inv(s, run) && |s.workers| > 0 && QuietRun(s, run, events, s')
    ensures TimelyRun(s, run, events, s')
    decreases |events|
  {
    if events != [] {
      var e := events[0];
      assert WorkerOk(s, 0);
      OrderKept(s, run, e);
      TasksKept(s, run, e);
      AwaitsKept(s, run, e);
      WokenKept(s, run, e);
      assert |Step(s, run, e).workers| == |s.workers|;
      hide Step;
      hide InOrder;
      hide Tasks;
      hide Awaits;
      hide WorkersWoken;
      QuietIsTimely(Step(s, run, e), run, events[1..], s');
    }
  }

  /** In particular, a caller that enqueues nothing after it began shutdown has
      every task run. */
  lemma QuietShutdownRunsAll<R(!new)>(n: nat, run: TaskId -> R, events: seq<Event>, s: Pool<R>)
    requires n > 0 && QuietRun(New<R>(n), run, events, s) && AllExited(s.workers)
    ensures s.queue == [] && s.drained == [] && s.started == Range(0, s.spawned)
    ensures forall t :: 0 <= t < s.spawned ==> t in s.done && s.done[t] == run(t)
  {
    NewInv(n, run);
    QuietIsTimely(New<R>(n), run, events, s);
    hide Run;
    hide TimelyRun;
    hide QuietRun;
    ShutdownRunsAll(n, run, events, s);
  }

  /** The condition is exact: a task enqueued after the last worker left is
      never run, however the run continues. */
  lemma {:induction false} TooLateNeverRuns<R(!new)>(s: Pool<R>, run: TaskId -> R, t: TaskId, events: seq<Event>, s': Pool<R>)
    requires Inv(s, run) && AllExited(s.workers) && (t in s.queue || t in s.drained) && Run(s, run, events, s')
    ensures t !in s'.done && t !in s'.started
    decreases |events|
  {
    NotStarted(s, run, t);
    if events != [] {
      var e := events[0];
      var s1 := Step(s, run, e);
      OrderKept(s, run, e);
      TasksKept(s, run, e);
      AwaitsKept(s, run, e);
      WokenKept(s, run, e);
      assert AllExited(s1.workers) && (t in s1.queue || t in s1.drained);
      hide Inv;
      hide Step;
      TooLateNeverRuns(s1, run, t, events[1..], s');
    }
  }

  /** Such a task can come about: with one worker, shutdown, its exit, and then
      a spawn. */
  lemma TooLateReachable<R(!new)>(run: TaskId -> R) returns (s: Pool<R>)
    ensures Run(New<R>(1), run, [Shutdown, Enter(0), Spawn(0)], s)
    ensures Inv(s, run) && AllExited(s.workers) && 0 in s.queue
  {
    var s0 := New<R>(1);
    var s1 := Step(s0, run, Shutdown);
    assert s1.workers[0] == Ready;
    var s2 := Step(s1, run, Enter(0));
    assert AsleepWorkers(s2.workers) == {};
    s := Step(s2, run, Spawn(0));
    assert Run(s, run, [], s);
    RunOne(s2, run, Spawn(0), [], s);
    RunOne(s1, run, Enter(0), [Spawn(0)], s);
    RunOne(s0, run, Shutdown, [Enter(0), Spawn(0)], s);
    NewInv(1, run);
    RunKeeps(s0, run, [Shutdown, Enter(0), Spawn(0)], s);
    hide Inv;
    hide Run;
    assert s.queue[0] == 0;
  }

  lemma RunOne<R(!new)>(s: Pool<R>, run: TaskId -> R, e: Event, rest: seq<Event>, s': Pool<R>)
    requires Enabled(s, e) && Run(Step(s, run, e), run, rest, s')
    ensures Run(s, run, [e] + rest, s')
  {
    assert ([e] + rest)[1..] == rest;
  }

  lemma NotStarted<R(!new)>(s: Pool<R>, run: TaskId -> R, t: TaskId)
    requires Inv(s, run) && (t in s.queue || t in s.drained)
    ensures t !in s.started && t !in s.done
  {
    var rest := s.queue + s.drained;
    assert t in rest;
    var i :| 0 <= i < |rest| && rest[i] == t;
    assert t == |s.started| + i;
  }

  // ---- what can happen next ----

  /** An await is begun once for a spawned task, sleeps until its task is complete,
      is then roused, and returns when it runs again; nothing else happens to it. */
  lemma AwaitEvents<R(!new)>(s: Pool<R>, run: TaskId -> R, t: TaskId)
    requires Inv(s, run)
    ensures Enabled(s, AwaitStart(t)) <==> t < s.spawned && t !in s.awaits
    ensures t in s.awaits && t !in s.done ==> s.awaits[t] == Sleeping || Enabled(s, AwaitResume(t))
    ensures t in s.awaits && t in s.done && s.awaits[t] != Returned ==>
              Enabled(s, AwaitResume(t)) && Step(s, run, AwaitResume(t)).awaits[t] == Returned
    ensures Enabled(s, SpuriousAwait(t)) ==> !Enabled(s, AwaitResume(t))
    ensures t in s.awaits ==> (Enabled(s, SpuriousAwait(t)) || Enabled(s, AwaitResume(t)) <==> s.awaits[t] != Returned)
  {
    if t in s.awaits {
      assert AwaitOk(s, t);
    }
  }

  /** The pool is shut down exactly by a call of shutdown, and emptied exactly by
      the drain; until then its workers stay. */
  lemma {:induction false} FlagsIff<R(!new)>(s: Pool<R>, run: TaskId -> R, events: seq<Event>, s': Pool<R>)
    requires Run(s, run, events, s')
    ensures s'.shutdown <==> s.shutdown || Shutdown in events
    ensures s'.freed <==> s.freed || Drain in events
    decreases |events|
  {
    if events != [] {
      var s1 := Step(s, run, events[0]);
      assert s1.shutdown == (s.shutdown || events[0] == Shutdown) && s1.freed == (s.freed || events[0] == Drain);
      assert events == [events[0]] + events[1..];
      hide Step;
      hide Enabled;
      FlagsIff(s1, run, events[1..], s');
    }
  }

  lemma NewIsOpen<R(!new)>(n: nat, run: TaskId -> R, events: seq<Event>, s: Pool<R>)
    requires Run(New<R>(n), run, events, s)
    ensures (s.shutdown <==> Shutdown in events) && (s.freed <==> Drain in events) && |New<R>(n).workers| == n
    ensures forall w :: 0 <= w < n ==> Enabled(New<R>(n), Enter(w))
  {
    FlagsIff(New(n), run, events, s);
  }
}
