/** The throttled green-thread scheduler as a transition system: one step per
    critical section of a spawner, the dispatcher, a green thread or the thread
    that shuts down. */
module GreenThreads {
  import opened Wrappers

  type Gid = nat

  /** The life of a green thread. It holds a throttle slot while it executes,
      is finished, and is counted out but has not released the slot. */
  datatype Phase =
    | Spawning      // counted, not yet queued
    | Queued
    | Held          // popped by the dispatcher
    | Launched      // about to acquire a slot
    | AcquireAsleep
    | AcquireWoken
    | Executing
    | Finished      // result stored, not yet counted out
    | CountedOut
    | CreateFailed  // marked complete without running, not yet counted out
    | Gone

  type Phases = seq<Phase>

  datatype Group = HoldsSlot | Uncounted | Sleeping | Woken | Running

  predicate In(p: Phase, g: Group) {
    match g
    case HoldsSlot => p.Executing? || p.Finished? || p.CountedOut?
    case Uncounted => !p.CountedOut? && !p.Gone?
    case Sleeping => p.AcquireAsleep?
    case Woken => p.AcquireWoken?
    case Running => p.Executing?
  }

  function Members(ph: Phases, g: Group): set<Gid> {
    set t | 0 <= t < |ph| && In(ph[t], g)
  }

  datatype Dispatcher = Looking | Launching(t: Gid) | CountingOut(t: Gid) | Left

  /** The thread in shutdown waits on `all_done`, or is past it. */
  datatype Closer = NotYet | Waiting(awake: bool) | Past

  /** `executed`: the threads whose body was entered; `completed`: the stored
      results, None where no thread could be created. */
  datatype Sched<R> = Sched(phases: Phases, queue: seq<Gid>, alive: int, active: int, maxConcurrent: nat,
                            shutdown: bool, dispatcher: Dispatcher, closer: Closer, pushed: seq<Gid>, popped: seq<Gid>,
                            executed: set<Gid>, completed: map<Gid, Option<R>>)

  datatype Event =
    | SpawnCount
    | SpawnPush(t: Gid)
    | Pop
    | Launch
    | LaunchFails
    | CountFailed
    | Acquire(t: Gid)
    | Finish(t: Gid)
    | CountDone(t: Gid)
    | Release(t: Gid, pick: Gid)
    | SpuriousAcquire(t: Gid)
    | Close
    | SpuriousClose
    | Leave

  function New<R>(n: nat): Sched<R> {
    Sched([], [], 0, 0, n, false, Looking, NotYet, [], [], {}, map[])
  }

  // ---- steps ----

  function Put(ph: Phases, t: Gid, p: Phase): Phases
    requires t < |ph|
  {
    ph[t := p]
  }

  /** One fewer alive; at zero the closer is signalled. */
  function CountDown<R>(s: Sched<R>): Sched<R> {
    s.(alive := s.alive - 1, closer := if s.alive == 1 && s.closer == Waiting(false) then Waiting(true) else s.closer)
  }

  function SignalSlot(ph: Phases, pick: Gid): (r: Phases)
    ensures |r| == |ph|
  {
    if pick < |ph| && ph[pick] == AcquireAsleep then ph[pick := AcquireWoken] else ph
  }

  predicate Enabled<R>(s: Sched<R>, e: Event) {
    match e
    case SpawnCount => true
    case SpawnPush(t) => t < |s.phases| && s.phases[t] == Spawning
    case Pop => s.dispatcher == Looking && s.queue != [] && s.queue[0] < |s.phases|
    case Launch => s.dispatcher.Launching? && s.dispatcher.t < |s.phases|
    case LaunchFails => s.dispatcher.Launching? && s.dispatcher.t < |s.phases|
    case CountFailed => s.dispatcher.CountingOut? && s.dispatcher.t < |s.phases|
    case Acquire(t) => t < |s.phases| && (s.phases[t] == Launched || s.phases[t] == AcquireWoken)
    case Finish(t) => t < |s.phases| && s.phases[t] == Executing
    case CountDone(t) => t < |s.phases| && s.phases[t] == Finished
    case Release(t, pick) =>
      && t < |s.phases| && s.phases[t] == CountedOut
      && (Members(s.phases, Sleeping) != {} ==> pick in Members(s.phases, Sleeping))
    case SpuriousAcquire(t) => t < |s.phases| && s.phases[t] == AcquireAsleep
    case Close => s.closer == NotYet || s.closer == Waiting(true)
    case SpuriousClose => s.closer == Waiting(false)
    case Leave => s.dispatcher == Looking && s.shutdown
  }

  function Step<R>(s: Sched<R>, run: Gid -> R, e: Event): Sched<R>
    requires Enabled(s, e)
  {
    match e
    case SpawnCount => s.(phases := s.phases + [Spawning], alive := s.alive + 1)
    case SpawnPush(t) =>
      s.(phases := Put(s.phases, t, Queued), queue := s.queue + [t], pushed := s.pushed + [t])
    case Pop =>
      var t := s.queue[0];
      s.(phases := Put(s.phases, t, Held), queue := s.queue[1..], popped := s.popped + [t], dispatcher := Launching(t))
    case Launch => s.(phases := Put(s.phases, s.dispatcher.t, Launched), dispatcher := Looking)
    case LaunchFails =>
      var t := s.dispatcher.t;
      s.(phases := Put(s.phases, t, CreateFailed), dispatcher := CountingOut(t), completed := s.completed[t := None])
    case CountFailed =>
      CountDown(s.(phases := Put(s.phases, s.dispatcher.t, Gone), dispatcher := Looking))
    case Acquire(t) =>
      if s.active >= s.maxConcurrent then s.(phases := Put(s.phases, t, AcquireAsleep))
      else s.(phases := Put(s.phases, t, Executing), active := s.active + 1, executed := s.executed + {t})
    case Finish(t) => s.(phases := Put(s.phases, t, Finished), completed := s.completed[t := Some(run(t))])
    case CountDone(t) => CountDown(s.(phases := Put(s.phases, t, CountedOut)))
    case Release(t, pick) =>
      s.(phases := Put(SignalSlot(s.phases, pick), t, Gone), active := s.active - 1)
    case SpuriousAcquire(t) => s.(phases := Put(s.phases, t, AcquireWoken))
    case Close => if s.alive > 0 then s.(closer := Waiting(false)) else s.(closer := Past, shutdown := true)
    case SpuriousClose => s.(closer := Waiting(true))
    case Leave => s.(dispatcher := Left)
  }

  // ---- counting ----

  function One(b: bool): nat {
    if b then 1 else 0
  }

  lemma MovedSet(ph: Phases, t: Gid, p: Phase, g: Group)
    requires t < |ph|
    ensures t in Members(ph, g) <==> In(ph[t], g)
    ensures Members(Put(ph, t, p), g) == if In(p, g) then Members(ph, g) + {t} else Members(ph, g) - {t}
  {
    hide In;
    var before, after := Members(ph, g), Members(Put(ph, t, p), g);
    if In(p, g) {
      assert after == before + {t};
    } else {
      assert after == before - {t};
    }
  }

  /** Moving one thread changes a group by at most that thread. */
  lemma Moved(ph: Phases, t: Gid, p: Phase, g: Group)
    requires t < |ph|
    ensures |Members(Put(ph, t, p), g)| == |Members(ph, g)| - One(In(ph[t], g)) + One(In(p, g))
    ensures !In(p, g) && !In(ph[t], g) ==> Members(Put(ph, t, p), g) == Members(ph, g)
  {
    MovedSet(ph, t, p, g);
    hide In;
    hide Members;
    if t in Members(ph, g) {
      assert Members(ph, g) + {t} == Members(ph, g);
    } else {
      assert Members(ph, g) - {t} == Members(ph, g);
    }
  }

  lemma Grown(ph: Phases, p: Phase, g: Group)
    ensures |Members(ph + [p], g)| == |Members(ph, g)| + One(In(p, g))
  {
    hide In;
    assert Members(ph + [p], g) == Members(ph, g) + if In(p, g) then {|ph|} else {};
    assert |ph| !in Members(ph, g);
  }

  lemma SignalMoves(ph: Phases, pick: Gid)
    requires Members(ph, Sleeping) != {} ==> pick in Members(ph, Sleeping)
    ensures Members(ph, Sleeping) == {} ==> SignalSlot(ph, pick) == ph
    ensures Members(ph, Sleeping) != {} ==>
              pick < |ph| && ph[pick] == AcquireAsleep && SignalSlot(ph, pick) == Put(ph, pick, AcquireWoken)
  {
    if Members(ph, Sleeping) == {} {
      assert pick !in Members(ph, Sleeping);
    }
  }

  // ---- what every step keeps ----

  /** The counters count what they are for. */
  predicate Counts<R>(s: Sched<R>) {
    && s.active == |Members(s.phases, HoldsSlot)| <= s.maxConcurrent
    && s.alive == |Members(s.phases, Uncounted)|
  }

  /** Free slots are spoken for by threads already woken. */
  predicate SlotsSpokenFor<R>(s: Sched<R>) {
    Members(s.phases, Sleeping) != {} ==> s.maxConcurrent - s.active <= |Members(s.phases, Woken)|
  }

  /** The closer sleeps only while threads are alive. */
  predicate CloserOk<R>(s: Sched<R>) {
    s.closer == Waiting(false) ==> s.alive > 0
  }

  predicate Queue<R>(s: Sched<R>) {
    && s.popped + s.queue == s.pushed
    && (forall i {:trigger s.queue[i]} :: 0 <= i < |s.queue| ==> s.queue[i] < |s.phases| && s.phases[s.queue[i]] == Queued)
    && (forall i, j :: 0 <= i < j < |s.queue| ==> s.queue[i] != s.queue[j])
    && (s.dispatcher.Launching? ==> s.dispatcher.t < |s.phases| && s.phases[s.dispatcher.t] == Held)
    && (s.dispatcher.CountingOut? ==> s.dispatcher.t < |s.phases| && s.phases[s.dispatcher.t] == CreateFailed)
  }

  /** Events that move exactly one thread to another phase. */
  predicate Moves(e: Event) {
    !e.SpawnCount? && !e.Release? && !e.Close? && !e.SpuriousClose? && !e.Leave?
  }

  function Target<R>(s: Sched<R>, e: Event): Gid
    requires Enabled(s, e) && Moves(e)
  {
    if e.Pop? then s.queue[0]
    else if e.Launch? || e.LaunchFails? || e.CountFailed? then s.dispatcher.t
    else e.t
  }

  /** The counters change with the thread that moves. */
  lemma CountersFollow<R(!new)>(s: Sched<R>, run: Gid -> R, e: Event)
    requires Queue(s) && Enabled(s, e) && Moves(e)
    ensures var s', t := Step(s, run, e), Target(s, e);
            && t < |s.phases| && |s'.phases| == |s.phases| && s'.phases == Put(s.phases, t, s'.phases[t])
            && s'.active == s.active - One(In(s.phases[t], HoldsSlot)) + One(In(s'.phases[t], HoldsSlot))
            && s'.alive == s.alive - One(In(s.phases[t], Uncounted)) + One(In(s'.phases[t], Uncounted))
            && s'.maxConcurrent == s.maxConcurrent
            && (s'.active > s.active ==> s.active < s.maxConcurrent)
  {
    if e.Pop? {
      assert s.phases[s.queue[0]] == Queued;
    }
  }

  lemma MoveCounts<R(!new)>(s: Sched<R>, run: Gid -> R, e: Event)
    requires Counts(s) && Queue(s) && Enabled(s, e) && Moves(e)
    ensures Counts(Step(s, run, e))
  {
    CountersFollow(s, run, e);
    var s', t := Step(s, run, e), Target(s, e);
    hide Step;
    hide Members;
    hide In;
    hide Put;
    Moved(s.phases, t, s'.phases[t], HoldsSlot);
    Moved(s.phases, t, s'.phases[t], Uncounted);
  }

  lemma CountsKept<R(!new)>(s: Sched<R>, run: Gid -> R, e: Event)
    requires Counts(s) && Queue(s) && Enabled(s, e)
    ensures Counts(Step(s, run, e))
  {
    if e.SpawnCount? {
      Grown(s.phases, Spawning, HoldsSlot);
      Grown(s.phases, Spawning, Uncounted);
      hide Members;
    } else if e.Release? {
      ReleaseCounts(s, e.t, e.pick);
      hide Members;
    } else if Moves(e) {
      MoveCounts(s, run, e);
    } else {
      hide Members;
      assert Step(s, run, e).phases == s.phases;
    }
  }

  lemma ReleaseCounts<R(!new)>(s: Sched<R>, t: Gid, pick: Gid)
    requires t < |s.phases| && s.phases[t] == CountedOut
    requires Members(s.phases, Sleeping) != {} ==> pick in Members(s.phases, Sleeping)
    ensures var after := Put(SignalSlot(s.phases, pick), t, Gone);
            && |Members(after, HoldsSlot)| == |Members(s.phases, HoldsSlot)| - 1
            && |Members(after, Uncounted)| == |Members(s.phases, Uncounted)|
            && (Members(s.phases, Sleeping) != {} ==> |Members(after, Woken)| == |Members(s.phases, Woken)| + 1)
            && (Members(s.phases, Sleeping) == {} ==> Members(after, Sleeping) == {})
  {
    SignalMoves(s.phases, pick);
    var mid := SignalSlot(s.phases, pick);
    Moved(mid, t, Gone, HoldsSlot);
    Moved(mid, t, Gone, Uncounted);
    Moved(mid, t, Gone, Woken);
    Moved(mid, t, Gone, Sleeping);
    if Members(s.phases, Sleeping) != {} {
      Moved(s.phases, pick, AcquireWoken, HoldsSlot);
      Moved(s.phases, pick, AcquireWoken, Uncounted);
      Moved(s.phases, pick, AcquireWoken, Woken);
    }
    hide Members;
  }

  /** How a move changes the threads waiting for a slot. */
  lemma MoveSlots<R(!new)>(s: Sched<R>, run: Gid -> R, e: Event)
    requires SlotsSpokenFor(s) && Queue(s) && Enabled(s, e) && Moves(e)
    ensures SlotsSpokenFor(Step(s, run, e))
  {
    CountersFollow(s, run, e);
    var s', t := Step(s, run, e), Target(s, e);
    var p := s'.phases[t];
    assert In(p, Sleeping) ==> s'.active >= s'.maxConcurrent;
    assert In(s.phases[t], Woken) ==> In(p, Sleeping) || s'.active == s.active + 1;
    assert In(s.phases[t], HoldsSlot) ==> In(p, HoldsSlot);
    MovedSet(s.phases, t, p, Sleeping);
    Moved(s.phases, t, p, Sleeping);
    Moved(s.phases, t, p, Woken);
    hide Step;
    hide Members;
    hide Put;
    hide In;
  }

  lemma SlotsKept<R(!new)>(s: Sched<R>, run: Gid -> R, e: Event)
    requires SlotsSpokenFor(s) && Queue(s) && Enabled(s, e)
    ensures SlotsSpokenFor(Step(s, run, e))
  {
    if e.SpawnCount? {
      Grown(s.phases, Spawning, Sleeping);
      Grown(s.phases, Spawning, Woken);
      hide Members;
    } else if e.Release? {
      ReleaseCounts(s, e.t, e.pick);
      hide Members;
    } else if Moves(e) {
      MoveSlots(s, run, e);
    } else {
      hide Members;
      assert Step(s, run, e).phases == s.phases;
    }
  }

  lemma QueuePush<R(!new)>(s: Sched<R>, run: Gid -> R, t: Gid)
    requires Queue(s) && Enabled(s, SpawnPush(t))
    ensures Queue(Step(s, run, SpawnPush(t)))
  {
    assert s.popped + s.queue + [t] == s.popped + (s.queue + [t]);
    forall i | 0 <= i < |s.queue|
      ensures s.queue[i] != t
    {
    }
  }

  lemma QueuePop<R(!new)>(s: Sched<R>, run: Gid -> R)
    requires Queue(s) && Enabled(s, Pop)
    ensures Queue(Step(s, run, Pop))
  {
    assert s.popped + s.queue == s.popped + [s.queue[0]] + s.queue[1..];
  }

  /** Moving a thread that is not queued. */
  lemma QueueOther<R(!new)>(s: Sched<R>, run: Gid -> R, e: Event)
    requires Queue(s) && Enabled(s, e) && Moves(e) && !e.SpawnPush? && !e.Pop?
    ensures Queue(Step(s, run, e))
  {
    var s' := Step(s, run, e);
    forall i {:trigger s'.queue[i]} | 0 <= i < |s'.queue|
      ensures s'.queue[i] < |s'.phases| && s'.phases[s'.queue[i]] == Queued
    {
      assert s.queue[i] == s'.queue[i];
    }
  }

  lemma QueueKept<R(!new)>(s: Sched<R>, run: Gid -> R, e: Event)
    requires Queue(s) && Enabled(s, e)
    ensures Queue(Step(s, run, e))
  {
    hide Members;
    if e.SpawnPush? {
      QueuePush(s, run, e.t);
    } else if e.Pop? {
      QueuePop(s, run);
    } else if Moves(e) {
      QueueOther(s, run, e);
    } else {
      var s' := Step(s, run, e);
      forall i {:trigger s'.queue[i]} | 0 <= i < |s'.queue|
        ensures s'.queue[i] < |s'.phases| && s'.phases[s'.queue[i]] == Queued
      {
        assert s.queue[i] == s'.queue[i];
      }
    }
  }

  // ---- results ----

  /** A body is entered at most once, and what is stored is its own result. */
  ghost predicate ResultOk<R>(s: Sched<R>, run: Gid -> R, t: Gid)
    requires t < |s.phases|
  {
    match s.phases[t]
    case Executing => t in s.executed && t !in s.completed
    case Finished => t in s.executed && t in s.completed && s.completed[t] == Some(run(t))
    case CountedOut => t in s.executed && t in s.completed && s.completed[t] == Some(run(t))
    case CreateFailed => t !in s.executed && t in s.completed && s.completed[t] == None
    case Gone => t in s.completed && s.completed[t] == if t in s.executed then Some(run(t)) else None
    case _ => t !in s.executed && t !in s.completed
  }

  ghost predicate Results<R>(s: Sched<R>, run: Gid -> R) {
    && (forall t {:trigger ResultOk(s, run, t)} :: 0 <= t < |s.phases| ==> ResultOk(s, run, t))
    && (forall t :: t in s.executed ==> t < |s.phases|)
    && (forall t :: t in s.completed ==> t < |s.phases|)
  }

  lemma ResultsMove<R(!new)>(s: Sched<R>, run: Gid -> R, e: Event)
    requires Results(s, run) && Queue(s) && Enabled(s, e) && Moves(e)
    ensures Results(Step(s, run, e), run)
  {
    QueueHead(s);
    var s', x := Step(s, run, e), Target(s, e);
    forall t {:trigger ResultOk(s', run, t)} | 0 <= t < |s'.phases|
      ensures ResultOk(s', run, t)
    {
      assert ResultOk(s, run, t);
      if t != x {
        assert s'.phases[t] == s.phases[t];
      }
    }
  }

  lemma ResultsKept<R(!new)>(s: Sched<R>, run: Gid -> R, e: Event)
    requires Results(s, run) && Queue(s) && Enabled(s, e)
    ensures Results(Step(s, run, e), run)
  {
    if e.Release? {
      SignalMoves(s.phases, e.pick);
    }
    hide Members;
    if Moves(e) {
      ResultsMove(s, run, e);
    } else {
      hide Queue;
      var s' := Step(s, run, e);
      forall t {:trigger ResultOk(s', run, t)} | 0 <= t < |s'.phases|
        ensures ResultOk(s', run, t)
      {
        if t < |s.phases| {
          assert ResultOk(s, run, t);
        }
      }
    }
  }

  // ---- runs ----

  ghost predicate Inv<R(!new)>(s: Sched<R>, run: Gid -> R) {
    Counts(s) && SlotsSpokenFor(s) && CloserOk(s) && Queue(s) && Results(s, run)
  }

  ghost predicate Run<R(!new)>(s: Sched<R>, run: Gid -> R, events: seq<Event>, s': Sched<R>)
    decreases |events|
  {
    if events == [] then s' == s
    else Enabled(s, events[0]) && Run(Step(s, run, events[0]), run, events[1..], s')
  }

  lemma NewInv<R(!new)>(n: nat, run: Gid -> R)
    ensures Inv(New<R>(n), run)
  {
    assert Members([], HoldsSlot) == {} && Members([], Uncounted) == {} && Members([], Sleeping) == {};
  }

  lemma CloserKept<R(!new)>(s: Sched<R>, run: Gid -> R, e: Event)
    requires CloserOk(s) && Enabled(s, e)
    ensures CloserOk(Step(s, run, e))
  {
    hide Members;
  }

  lemma StepKeeps<R(!new)>(s: Sched<R>, run: Gid -> R, e: Event)
    requires Inv(s, run) && Enabled(s, e)
    ensures Inv(Step(s, run, e), run)
  {
    CountsKept(s, run, e);
    SlotsKept(s, run, e);
    CloserKept(s, run, e);
    QueueKept(s, run, e);
    ResultsKept(s, run, e);
    hide Counts;
    hide SlotsSpokenFor;
    hide CloserOk;
    hide Queue;
    hide Results;
    hide Step;
  }

  lemma {:induction false} RunKeeps<R(!new)>(s: Sched<R>, run: Gid -> R, events: seq<Event>, s': Sched<R>)
    requires Inv(s, run) && Run(s, run, events, s')
    ensures Inv(s', run)
    decreases |events|
  {
    if events != [] {
      StepKeeps(s, run, events[0]);
      hide Inv;
      hide Step;
      RunKeeps(Step(s, run, events[0]), run, events[1..], s');
    }
  }

  lemma {:induction false} LimitFixed<R(!new)>(s: Sched<R>, run: Gid -> R, events: seq<Event>, s': Sched<R>)
    requires Run(s, run, events, s')
    ensures s'.maxConcurrent == s.maxConcurrent
    decreases |events|
  {
    if events != [] {
      hide Members;
      LimitFixed(Step(s, run, events[0]), run, events[1..], s');
    }
  }

  lemma RunningHoldSlots(ph: Phases)
    ensures |Members(ph, Running)| <= |Members(ph, HoldsSlot)|
  {
    assert Members(ph, Running) <= Members(ph, HoldsSlot);
    SubsetSmaller(Members(ph, Running), Members(ph, HoldsSlot));
  }

  lemma {:induction false} SubsetSmaller(a: set<Gid>, b: set<Gid>)
    requires a <= b
    ensures |a| <= |b|
  {
    assert b == a + (b - a);
  }

  /** MAIN RESULT. In every interleaving at most n bodies execute at once, the
      two counters count exactly the slots held and the threads not yet counted
      out (those that could not be created included), threads are launched in
      the order they were queued, each result is that of its own body, and
      while threads sleep for a slot the free slots are spoken for. */
  lemma SchedulerSafe<R(!new)>(n: nat, run: Gid -> R, events: seq<Event>, s: Sched<R>)
    requires Run(New<R>(n), run, events, s)
    ensures |Members(s.phases, Running)| <= s.active <= n
    ensures s.active == |Members(s.phases, HoldsSlot)| && s.alive == |Members(s.phases, Uncounted)|
    ensures s.popped <= s.pushed && s.popped + s.queue == s.pushed
    ensures Members(s.phases, Sleeping) != {} ==> n - s.active <= |Members(s.phases, Woken)|
    ensures forall t :: t in s.completed ==> s.completed[t] == if t in s.executed then Some(run(t)) else None
  {
    NewInv(n, run);
    RunKeeps(New<R>(n), run, events, s);
    LimitFixed(New<R>(n), run, events, s);
    RunningHoldSlots(s.phases);
    hide Run;
    hide Members;
    forall t | t in s.completed
      ensures s.completed[t] == if t in s.executed then Some(run(t)) else None
    {
      assert ResultOk(s, run, t);
    }
  }

  /** A body that is entered was not entered before. */
  lemma EnteredOnce<R(!new)>(s: Sched<R>, run: Gid -> R, t: Gid)
    requires Inv(s, run) && Enabled(s, Acquire(t))
    ensures t in Step(s, run, Acquire(t)).executed <==> s.active < s.maxConcurrent
    ensures t !in s.executed
  {
    assert ResultOk(s, run, t);
  }

  // ---- shutdown ----

  /** Counted out or gone. */
  predicate AllDone(ph: Phases) {
    forall t :: 0 <= t < |ph| ==> ph[t].CountedOut? || ph[t].Gone?
  }

  lemma NobodyUncounted(ph: Phases)
    requires Members(ph, Uncounted) == {}
    ensures AllDone(ph)
  {
    forall t | 0 <= t < |ph|
      ensures ph[t].CountedOut? || ph[t].Gone?
    {
      assert t !in Members(ph, Uncounted);
    }
  }

  lemma QueueHead<R(!new)>(s: Sched<R>)
    requires Queue(s)
    ensures s.queue != [] ==> s.queue[0] < |s.phases| && s.phases[s.queue[0]] == Queued
  {
  }

  /** MAIN RESULT. The step that sets the shutdown flag is taken only when every
      thread ever counted has completed and the run queue is empty. */
  lemma FlagMeansDone<R(!new)>(s: Sched<R>, run: Gid -> R)
    requires Inv(s, run) && Enabled(s, Close) && !s.shutdown
    ensures Step(s, run, Close).shutdown <==> s.alive == 0
    ensures s.alive == 0 ==>
              && AllDone(s.phases) && s.queue == [] && s.dispatcher in {Looking, Left}
              && (forall t :: 0 <= t < |s.phases| ==> t in s.completed)
  {
    if s.alive == 0 {
      NobodyUncounted(s.phases);
      hide Members;
      QueueHead(s);
      forall t | 0 <= t < |s.phases|
        ensures t in s.completed
      {
        assert ResultOk(s, run, t);
      }
    }
  }

  /** Nothing is spawned once the flag is set. */
  ghost predicate QuietRun<R(!new)>(s: Sched<R>, run: Gid -> R, events: seq<Event>, s': Sched<R>)
    decreases |events|
  {
    if events == [] then s' == s
    else
      && Enabled(s, events[0]) && (s.shutdown ==> !events[0].SpawnCount?)
      && QuietRun(Step(s, run, events[0]), run, events[1..], s')
  }

  predicate Closed<R>(s: Sched<R>) {
    s.shutdown ==> AllDone(s.phases)
  }

  lemma ClosedKept<R(!new)>(s: Sched<R>, run: Gid -> R, e: Event)
    requires Inv(s, run) && Closed(s) && Enabled(s, e) && (s.shutdown ==> !e.SpawnCount?)
    ensures Closed(Step(s, run, e))
  {
    if e.Close? && !s.shutdown {
      FlagMeansDone(s, run);
    }
    if e.Release? {
      SignalMoves(s.phases, e.pick);
    }
    hide Members;
    QueueHead(s);
  }

  /** Then, whatever happens after the flag is set, all threads stay complete
      and the drain at the end finds an empty queue. */
  lemma {:induction false} QuietShutdown<R(!new)>(s: Sched<R>, run: Gid -> R, events: seq<Event>, s': Sched<R>)
    requires Inv(s, run) && Closed(s) && QuietRun(s, run, events, s')
    ensures Inv(s', run) && Closed(s') && (s'.shutdown ==> s'.queue == [] && s'.alive == 0)
    decreases |events|
  {
    if events == [] {
      if s.shutdown {
        assert Members(s.phases, Uncounted) == {};
        QueueHead(s);
      }
    } else {
      StepKeeps(s, run, events[0]);
      ClosedKept(s, run, events[0]);
      hide Inv;
      hide Closed;
      hide Step;
      QuietShutdown(Step(s, run, events[0]), run, events[1..], s');
    }
  }

  /** The condition is needed: a thread counted but not launched when the
      dispatcher leaves is never run, however the run continues. */
  lemma {:induction false} LateSpawnNeverRuns<R(!new)>(s: Sched<R>, run: Gid -> R, t: Gid, events: seq<Event>, s': Sched<R>)
    requires Inv(s, run) && s.dispatcher == Left && t < |s.phases| && s.phases[t] in {Spawning, Queued}
    requires Run(s, run, events, s')
    ensures t < |s'.phases| && s'.phases[t] in {Spawning, Queued} && t !in s'.executed && t !in s'.completed
    decreases |events|
  {
    if events == [] {
      assert ResultOk(s, run, t);
    } else {
      StepKeeps(s, run, events[0]);
      StaysQueued(s, run, t, events[0]);
      hide Inv;
      hide Step;
      LateSpawnNeverRuns(Step(s, run, events[0]), run, t, events[1..], s');
    }
  }

  /** Such a thread can come about: shutdown with nothing alive, the dispatcher's
      exit, and then a spawn. */
  lemma LateSpawnReachable<R(!new)>(n: nat, run: Gid -> R) returns (s: Sched<R>)
    ensures Run(New<R>(n), run, [Close, Leave, SpawnCount, SpawnPush(0)], s)
    ensures Inv(s, run) && s.dispatcher == Left && |s.phases| == 1 && s.phases[0] == Queued
  {
    var s0 := New<R>(n);
    var s1 := Step(s0, run, Close);
    var s2 := Step(s1, run, Leave);
    var s3 := Step(s2, run, SpawnCount);
    assert s3.phases == [Spawning];
    s := Step(s3, run, SpawnPush(0));
    assert Run(s, run, [], s);
    assert Enabled(s0, Close) && Enabled(s1, Leave) && Enabled(s3, SpawnPush(0));
    hide Step;
    RunOne(s3, run, SpawnPush(0), [], s);
    RunOne(s2, run, SpawnCount, [SpawnPush(0)], s);
    RunOne(s1, run, Leave, [SpawnCount, SpawnPush(0)], s);
    RunOne(s0, run, Close, [Leave, SpawnCount, SpawnPush(0)], s);
    NewInv(n, run);
    RunKeeps(s0, run, [Close, Leave, SpawnCount, SpawnPush(0)], s);
  }

  lemma RunOne<R(!new)>(s: Sched<R>, run: Gid -> R, e: Event, rest: seq<Event>, s': Sched<R>)
    requires Enabled(s, e) && Run(Step(s, run, e), run, rest, s')
    ensures Run(s, run, [e] + rest, s')
  {
    assert ([e] + rest)[1..] == rest;
  }

  // ---- exactly who is left behind ----

  /** Only the dispatcher holds popped threads, one at a time. */
  predicate HandsOk<R>(s: Sched<R>) {
    forall t {:trigger s.phases[t]} :: 0 <= t < |s.phases| ==>
      (s.phases[t] == Held ==> s.dispatcher == Launching(t)) &&
      (s.phases[t] == CreateFailed ==> s.dispatcher == CountingOut(t))
  }

  /** Started as a thread of its own, or given up and counted out. */
  predicate Started(p: Phase) {
    p !in {Spawning, Queued, Held, CreateFailed}
  }

  lemma HandsKept<R(!new)>(s: Sched<R>, run: Gid -> R, e: Event)
    requires HandsOk(s) && Queue(s) && Enabled(s, e)
    ensures HandsOk(Step(s, run, e))
    ensures |s.phases| <= |Step(s, run, e).phases|
  {
    QueueHead(s);
    if e.Release? {
      SignalMoves(s.phases, e.pick);
    }
    hide Members;
    hide Queue;
    var s' := Step(s, run, e);
    forall t {:trigger s'.phases[t]} | 0 <= t < |s'.phases|
      ensures (s'.phases[t] == Held ==> s'.dispatcher == Launching(t)) &&
              (s'.phases[t] == CreateFailed ==> s'.dispatcher == CountingOut(t))
    {
      if t < |s.phases| {
        assert s.phases[t] == Held ==> s.dispatcher == Launching(t);
      }
    }
  }

  lemma {:induction false} RunHands<R(!new)>(s: Sched<R>, run: Gid -> R, events: seq<Event>, s': Sched<R>)
    requires HandsOk(s) && Inv(s, run) && Run(s, run, events, s')
    ensures HandsOk(s')
    decreases |events|
  {
    if events != [] {
      HandsKept(s, run, events[0]);
      StepKeeps(s, run, events[0]);
      hide Inv;
      hide HandsOk;
      hide Step;
      RunHands(Step(s, run, events[0]), run, events[1..], s');
    }
  }

  /** After the dispatcher left, a thread has started or never will. */
  lemma AfterLeave<R(!new)>(s: Sched<R>, run: Gid -> R, e: Event, t: Gid)
    requires s.dispatcher == Left && HandsOk(s) && Queue(s) && Enabled(s, e) && t < |s.phases|
    ensures var s' := Step(s, run, e);
            s'.dispatcher == Left && t < |s'.phases| && (Started(s'.phases[t]) <==> Started(s.phases[t]))
  {
    if e.Release? {
      SignalMoves(s.phases, e.pick);
    }
    hide Members;
    hide Queue;
  }

  lemma LeftStep<R(!new)>(s: Sched<R>, run: Gid -> R, e: Event, t: Gid)
    requires s.dispatcher == Left && Enabled(s, e)
    ensures Step(s, run, e).dispatcher == Left
    ensures |s.phases| <= t < |Step(s, run, e).phases| ==> Step(s, run, e).phases[t] == Spawning
  {
    hide Members;
  }

  lemma {:induction false} StartedIff<R(!new)>(s: Sched<R>, run: Gid -> R, t: Gid, events: seq<Event>, s': Sched<R>)
    requires Inv(s, run) && HandsOk(s) && s.dispatcher == Left && Run(s, run, events, s') && t < |s'.phases|
    ensures |s.phases| <= |s'.phases|
    ensures Started(s'.phases[t]) <==> t < |s.phases| && Started(s.phases[t])
    decreases |events|
  {
    if events != [] {
      var s1 := Step(s, run, events[0]);
      HandsKept(s, run, events[0]);
      StepKeeps(s, run, events[0]);
      if t < |s.phases| {
        AfterLeave(s, run, events[0], t);
      }
      LeftStep(s, run, events[0], t);
      hide Inv;
      hide HandsOk;
      hide Step;
      StartedIff(s1, run, t, events[1..], s');
    }
  }

  /** MAIN RESULT. In every run, when the dispatcher leaves: the threads that are
      ever started are exactly those no longer counted-but-unqueued or queued at
      that moment; the others, and all counted later, are never run and never
      complete. */
  lemma LeaveDecides<R(!new)>(n: nat, run: Gid -> R, before: seq<Event>, s: Sched<R>, after: seq<Event>, s': Sched<R>, t: Gid)
    requires Run(New<R>(n), run, before, s) && Enabled(s, Leave) && Run(Step(s, run, Leave), run, after, s')
    requires t < |s'.phases|
    ensures Started(s'.phases[t]) <==> t < |s.phases| && s.phases[t] != Spawning && s.phases[t] != Queued
    ensures !Started(s'.phases[t]) ==> t !in s'.executed && t !in s'.completed
  {
    NewInv(n, run);
    RunKeeps(New<R>(n), run, before, s);
    RunHands(New<R>(n), run, before, s);
    var s1 := Step(s, run, Leave);
    StepKeeps(s, run, Leave);
    HandsKept(s, run, Leave);
    StartedIff(s1, run, t, after, s');
    RunKeeps(s1, run, after, s');
    RunHands(s1, run, after, s');
    StaysLeft(s1, run, after, s');
    assert ResultOk(s', run, t);
    hide Run;
    hide Members;
  }

  lemma {:induction false} StaysLeft<R(!new)>(s: Sched<R>, run: Gid -> R, events: seq<Event>, s': Sched<R>)
    requires s.dispatcher == Left && Run(s, run, events, s')
    ensures s'.dispatcher == Left
    decreases |events|
  {
    if events != [] {
      LeftStep(s, run, events[0], 0);
      hide Step;
      StaysLeft(Step(s, run, events[0]), run, events[1..], s');
    }
  }

  lemma StaysQueued<R(!new)>(s: Sched<R>, run: Gid -> R, t: Gid, e: Event)
    requires s.dispatcher == Left && t < |s.phases| && s.phases[t] in {Spawning, Queued} && Enabled(s, e)
    ensures var s' := Step(s, run, e);
            s'.dispatcher == Left && t < |s'.phases| && s'.phases[t] in {Spawning, Queued}
  {
    hide Members;
  }

  // ---- the throttle after shutdown ----

  predicate TouchesThrottle(e: Event) {
    e.Acquire? || e.Release? || e.SpuriousAcquire?
  }

  predicate AllGone(ph: Phases) {
    forall t :: 0 <= t < |ph| ==> ph[t].Gone?
  }

  /** After the flag a slot that is held belongs to a thread counted out. */
  lemma HeldIsCountedOut(ph: Phases)
    requires AllDone(ph)
    ensures Members(ph, HoldsSlot) == {} <==> AllGone(ph)
    ensures Members(ph, Sleeping) == {}
  {
    forall t | 0 <= t < |ph|
      ensures t in Members(ph, HoldsSlot) <==> !ph[t].Gone?
    {
    }
  }

  lemma GoneKept<R(!new)>(s: Sched<R>, run: Gid -> R, e: Event)
    requires Queue(s) && s.shutdown && AllGone(s.phases) && Enabled(s, e) && !e.SpawnCount?
    ensures !TouchesThrottle(e) && Step(s, run, e).shutdown && AllGone(Step(s, run, e).phases)
  {
    hide Members;
    QueueHead(s);
  }

  lemma {:induction false} GoneStays<R(!new)>(s: Sched<R>, run: Gid -> R, events: seq<Event>, s': Sched<R>)
    requires Inv(s, run) && s.shutdown && AllGone(s.phases) && QuietRun(s, run, events, s')
    ensures s'.shutdown && AllGone(s'.phases) && Inv(s', run)
    decreases |events|
  {
    if events != [] {
      GoneKept(s, run, events[0]);
      StepKeeps(s, run, events[0]);
      hide Inv;
      hide AllGone;
      hide Step;
      GoneStays(Step(s, run, events[0]), run, events[1..], s');
    }
  }

  ghost predicate NeverTouched<R(!new)>(s: Sched<R>, run: Gid -> R) {
    forall events, s', e {:trigger QuietRun(s, run, events, s'), Enabled(s', e)} ::
      QuietRun(s, run, events, s') && Enabled(s', e) && !e.SpawnCount? ==> !TouchesThrottle(e)
  }

  /** MAIN RESULT. Once the flag is set and nothing more is spawned, no thread
      touches the throttle any more if and only if no slot is held: a thread that
      was counted out before the flag may still have to give its slot back. */
  lemma ThrottleUntouchedIff<R(!new)>(s: Sched<R>, run: Gid -> R)
    requires Inv(s, run) && Closed(s) && s.shutdown
    ensures NeverTouched(s, run) <==> s.active == 0
  {
    HeldIsCountedOut(s.phases);
    if s.active == 0 {
      forall events, s', e {:trigger QuietRun(s, run, events, s'), Enabled(s', e)} |
        QuietRun(s, run, events, s') && Enabled(s', e) && !e.SpawnCount?
        ensures !TouchesThrottle(e)
      {
        GoneStays(s, run, events, s');
        GoneKept(s', run, e);
      }
    } else {
      var t :| t in Members(s.phases, HoldsSlot);
      assert QuietRun(s, run, [], s) && Enabled(s, Release(t, 0));
    }
  }

  lemma {:induction false} RunAppend<R(!new)>(s: Sched<R>, run: Gid -> R, a: seq<Event>, mid: Sched<R>, b: seq<Event>, s': Sched<R>)
    requires Run(s, run, a, mid) && Run(mid, run, b, s')
    ensures Run(s, run, a + b, s')
    decreases |a|
  {
    if a == [] {
      assert a + b == b;
    } else {
      assert (a + b)[1..] == a[1..] + b;
      hide Step;
      RunAppend(Step(s, run, a[0]), run, a[1..], mid, b, s');
    }
  }

  /** One thread, in phase p. */
  function Single<R>(p: Phase, active: int): Sched<R> {
    Sched([p], [], 1, active, 1, false, Looking, NotYet, [0], [0], if active > 0 then {0} else {}, map[])
  }

  lemma OneLaunched<R(!new)>(run: Gid -> R)
    ensures Run(New<R>(1), run, [SpawnCount, SpawnPush(0), Pop, Launch], Single(Launched, 0))
  {
    var s0 := New<R>(1);
    var s1 := Step(s0, run, SpawnCount);
    assert s1.phases == [Spawning];
    var s2 := Step(s1, run, SpawnPush(0));
    assert s2.phases == [Queued] && s2.queue == [0];
    var s3 := Step(s2, run, Pop);
    assert s3.phases == [Held];
    var s4 := Step(s3, run, Launch);
    assert s4 == Single(Launched, 0);
    assert Run(s4, run, [], s4);
    hide Step;
    RunOne(s3, run, Launch, [], s4);
    RunOne(s2, run, Pop, [Launch], s4);
    RunOne(s1, run, SpawnPush(0), [Pop, Launch], s4);
    RunOne(s0, run, SpawnCount, [SpawnPush(0), Pop, Launch], s4);
  }

  lemma OneCounted<R(!new)>(run: Gid -> R) returns (s: Sched<R>)
    ensures Run(Single(Executing, 1), run, [Finish(0), CountDone(0), Close], s)
    ensures s.shutdown && s.active == 1 && s.phases == [CountedOut]
  {
    var s5: Sched<R> := Single(Executing, 1);
    var s6 := Step(s5, run, Finish(0));
    assert s6.phases == [Finished];
    var s7 := Step(s6, run, CountDone(0));
    assert s7.phases == [CountedOut];
    s := Step(s7, run, Close);
    assert Run(s, run, [], s);
    hide Step;
    RunOne(s7, run, Close, [], s);
    RunOne(s6, run, CountDone(0), [Close], s);
    RunOne(s5, run, Finish(0), [CountDone(0), Close], s);
  }

  lemma OneFinished<R(!new)>(run: Gid -> R) returns (s: Sched<R>)
    ensures Run(Single(Launched, 0), run, [Acquire(0), Finish(0), CountDone(0), Close], s)
    ensures s.shutdown && s.active == 1 && s.phases == [CountedOut]
  {
    var s4: Sched<R> := Single(Launched, 0);
    var s5: Sched<R> := Single(Executing, 1);
    s := OneCounted(run);
    assert Step(s4, run, Acquire(0)) == s5;
    hide Step;
    RunOne(s4, run, Acquire(0), [Finish(0), CountDone(0), Close], s);
  }

  /** The flag can be set while a slot is still held. */
  lemma FlagBeforeRelease<R(!new)>(run: Gid -> R) returns (s: Sched<R>)
    ensures exists events :: Run(New<R>(1), run, events, s)
    ensures s.shutdown && s.active == 1 && s.phases == [CountedOut]
  {
    OneLaunched(run);
    s := OneFinished(run);
    hide Run;
    RunAppend(New<R>(1), run, [SpawnCount, SpawnPush(0), Pop, Launch], Single(Launched, 0),
              [Acquire(0), Finish(0), CountDone(0), Close], s);
  }

  // ---- the closer ----

  /** The closer tests the count when it comes or has been woken, and only then;
      asleep it can only be woken, and once past it does nothing more. */
  lemma CloserEvents<R>(s: Sched<R>, run: Gid -> R)
    ensures Enabled(s, Close) <==> !s.closer.Past? && s.closer != Waiting(false)
    ensures Enabled(s, SpuriousClose) <==> !s.closer.Past? && !Enabled(s, Close)
    ensures Enabled(s, Close) ==> (Step(s, run, Close).closer.Past? <==> s.alive <= 0)
    ensures Enabled(s, Close) && s.alive > 0 ==> Step(s, run, Close) == s.(closer := Waiting(false))
    ensures Enabled(s, SpuriousClose) ==> Enabled(Step(s, run, SpuriousClose), Close)
  {
  }

  /** The last thread counted out, and no other, wakes a sleeping closer; so it
      never sleeps while nobody is alive. */
  lemma LastOneWakes<R(!new)>(s: Sched<R>, run: Gid -> R, e: Event)
    requires Inv(s, run) && Enabled(s, e) && !e.Close? && !e.SpuriousClose?
    ensures Step(s, run, e).closer ==
            if s.closer == Waiting(false) && s.alive > 0 && Step(s, run, e).alive == 0 then Waiting(true) else s.closer
    ensures Step(s, run, e).closer == Waiting(false) ==> Step(s, run, e).alive > 0
  {
    assert CloserOk(s);
    hide Members;
  }
}
