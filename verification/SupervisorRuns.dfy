/** What holds over every run of a supervisor. */
module SupervisorRuns {
  import opened Rings
  import opened Supervisor

  // ---- starts and stops alternate ----

  lemma StartBalanced(k: Kids, i: nat)
    requires i < |k.children| && ChildBalanced(k, i)
    ensures ChildBalanced(StartUpTo(k, |k.children|), i)
  {
    StartUpToLog(k, |k.children|);
    StartUpToEach(k, |k.children|, i);
    CallsAppend(k.log, StartCalls(k.children, |k.children|), i);
    CallsOfStarts(k.children, |k.children|, i);
    hide Calls;
    hide StartUpTo;
    hide StartCalls;
    if Restartable(k.children[i]) && k.children[i].state != Running {
      BalancedStart(Calls(k.log, i), i);
    } else {
      assert Calls(k.log, i) + [] == Calls(k.log, i);
    }
  }

  lemma StartedLogWithin(k: Kids)
    requires LogWithin(k.log, |k.children|)
    ensures LogWithin(StartUpTo(k, |k.children|).log, |k.children|)
  {
    StartUpToLog(k, |k.children|);
    StartCallsWithin(k.children, |k.children|);
    hide StartUpTo;
    hide StartCalls;
  }

  lemma {:induction false} StartCallsWithin(children: seq<Child>, n: nat)
    requires n <= |children|
    ensures LogWithin(StartCalls(children, n), n)
    decreases n
  {
    if n > 0 {
      StartCallsWithin(children, n - 1);
    }
  }

  /** The children after child x has been marked as failed. */
  function Marked(k: Kids, x: nat): Kids
    requires x < |k.children|
  {
    k.(children := k.children[x := k.children[x].(state := Failed, failures := k.children[x].failures + 1)])
  }

  lemma MarkedAlmost(k: Kids, x: nat, i: nat)
    requires x < |k.children| && i < |k.children| && Settled(k) && ChildBalanced(k, i)
    requires i == x ==> k.children[x].state == Running
    ensures AlmostBalanced(Marked(k, x), x, i)
  {
    hide Calls;
  }

  lemma FailBalanced(s: Sup, x: nat, at: int, now: int, i: nat)
    requires x < |s.kids.children| && i < |s.kids.children| && s.state == SupRunning
    requires Settled(s.kids) && ChildBalanced(s.kids, i) && (i == x ==> s.kids.children[x].state == Running)
    ensures ChildBalanced(ChildFailed(s, x, at, now).s.kids, i)
  {
    var k := Marked(s.kids, x);
    MarkedAlmost(s.kids, x, i);
    StopBalanced(k, x, i);
    RestartBalanced(k, 0, x, i);
    RestartBalanced(k, x, x, i);
    if k.children[x].mode != Never {
      OneForOneBalanced(k, x, i);
    }
    hide Calls;
    hide StopDown;
    hide RestartAll;
    hide RestartStopped;
    hide StopChild;
    hide Recent;
    hide AlmostBalanced;
    if k.children[x].mode == Never && i != x {
      assert ChildBalanced(k.(children := k.children[x := k.children[x].(state := Stopped)]), i);
    }
  }

  lemma FailShape(s: Sup, x: nat, at: int, now: int)
    requires x < |s.kids.children| && s.state == SupRunning && s.kids.children[x].mode != Never
    ensures var k, k' := Marked(s.kids, x), ChildFailed(s, x, at, now).s.kids;
            || k' == StopDown(k, |k.children|, 0) || k' == RestartAll(k, 0) || k' == RestartAll(k, x)
            || k' == RestartStopped(StopChild(k, x), x)
  {
    hide StopDown;
    hide RestartAll;
    hide RestartStopped;
    hide StopChild;
    hide Recent;
  }

  lemma FailLogWithin(s: Sup, x: int, at: int, now: int)
    requires LogWithin(s.kids.log, |s.kids.children|)
    ensures LogWithin(ChildFailed(s, x, at, now).s.kids.log, |s.kids.children|)
  {
    hide StopDown;
    hide RestartAll;
    hide RestartStopped;
    hide StopChild;
    hide Recent;
    hide ChildFailed;
    if 0 <= x < |s.kids.children| && s.state == SupRunning {
      var k := Marked(s.kids, x);
      LogsGrow(k, 0);
      LogsGrow(k, x);
      if k.children[x].mode != Never {
        OneForOneLog(k, x);
        FailShape(s, x, at, now);
      } else {
        FailNever(s, x, at, now);
      }
    } else {
      FailRefused(s, x, at, now);
    }
  }

  lemma FailRefused(s: Sup, x: int, at: int, now: int)
    requires x < 0 || x >= |s.kids.children| || s.state != SupRunning
    ensures ChildFailed(s, x, at, now) == Report(s, -1)
  {
  }

  lemma FailNever(s: Sup, x: nat, at: int, now: int)
    requires x < |s.kids.children| && s.state == SupRunning && s.kids.children[x].mode == Never
    ensures var k, k' := Marked(s.kids, x), ChildFailed(s, x, at, now).s.kids;
            || k' == StopDown(k, |k.children|, 0) || k' == RestartAll(k, 0) || k' == RestartAll(k, x)
            || k'.log == k.log
  {
    hide StopDown;
    hide RestartAll;
    hide Recent;
  }

  /** MAIN RESULT. As long as failures are reported of running children only,
      the starts and stops of every restartable child alternate. */
  lemma StepBalances(s: Sup, e: Event)
    requires Settled(s.kids) && AllBalanced(s.kids) && ReportsRunning(s, e)
    ensures AllBalanced(Step(s, e).kids)
  {
    var k, k' := s.kids, Step(s, e).kids;
    match e
    case Start =>
      StartedLogWithin(k);
      forall i {:trigger ChildBalanced(k', i)} | 0 <= i < |k'.children|
        ensures ChildBalanced(k', i)
      {
        assert ChildBalanced(k, i);
        StartBalanced(k, i);
      }
    case Stop =>
      LogsGrow(k, 0);
      forall i {:trigger ChildBalanced(k', i)} | 0 <= i < |k'.children|
        ensures ChildBalanced(k', i)
      {
        assert ChildBalanced(k, i);
        StopBalanced(k, |k.children|, i);
      }
    case Add(_, _, _) =>
      CallsBeyond(k.log, |k.children|, |k.children|);
      hide Calls;
      forall i {:trigger ChildBalanced(k', i)} | 0 <= i < |k'.children|
        ensures ChildBalanced(k', i)
      {
        if i < |k.children| {
          assert ChildBalanced(k, i);
        }
      }
    case Fail(x, at, now) =>
      FailLogWithin(s, x, at, now);
      hide ChildFailed;
      forall i {:trigger ChildBalanced(k', i)} | 0 <= i < |k'.children|
        ensures ChildBalanced(k', i)
      {
        FailOne(s, x, at, now, i);
      }
  }

  lemma FailOne(s: Sup, x: int, at: int, now: int, i: nat)
    requires Settled(s.kids) && AllBalanced(s.kids) && ReportsRunning(s, Fail(x, at, now))
    requires i < |ChildFailed(s, x, at, now).s.kids.children|
    ensures ChildBalanced(ChildFailed(s, x, at, now).s.kids, i)
  {
    hide Calls;
    FailLength(s, x, at, now);
    assert ChildBalanced(s.kids, i);
    if 0 <= x < |s.kids.children| && s.state == SupRunning {
      FailBalanced(s, x, at, now, i);
      hide ChildFailed;
    }
  }

  lemma FailLength(s: Sup, x: int, at: int, now: int)
    ensures |ChildFailed(s, x, at, now).s.kids.children| == |s.kids.children|
  {
    hide Recent;
    hide StopDown;
    hide Apply;
  }

  /** Exactly when a report on a restartable child keeps its calls alternating:
      the child was running. */
  lemma ReportBalancedIff(s: Sup, x: nat, at: int, now: int)
    requires x < |s.kids.children| && s.state == SupRunning && Restartable(s.kids.children[x])
    requires Settled(s.kids) && ChildBalanced(s.kids, x)
    ensures ChildBalanced(ChildFailed(s, x, at, now).s.kids, x) <==> s.kids.children[x].state == Running
  {
    if s.kids.children[x].state == Running {
      FailBalanced(s, x, at, now, x);
    } else {
      var before := Calls(s.kids.log, x);
      var k := Marked(s.kids, x);
      FailLength(s, x, at, now);
      FailCallsStop(s, x, at, now);
      var after := Calls(ChildFailed(s, x, at, now).s.kids.log, x);
      hide Calls;
      assert after[|before|] == StopCall(x);
      FailKind(s, x, at, now, x);
    }
  }

  /** A report always stops the child it is about, if it is restartable. */
  lemma FailCallsStop(s: Sup, x: nat, at: int, now: int)
    requires x < |s.kids.children| && s.state == SupRunning && Restartable(s.kids.children[x])
    ensures Calls(s.kids.log, x) + [StopCall(x)] <= Calls(ChildFailed(s, x, at, now).s.kids.log, x)
  {
    hide StopDown;
    hide RestartAll;
    hide RestartStopped;
    hide StopChild;
    hide Calls;
    hide ChildFailed;
    hide RestartsAt;
    var k := Marked(s.kids, x);
    FailShape(s, x, at, now);
    StopDownCalls(k, 0, x);
    RestartAllCalls(k, 0, x);
    RestartAllCalls(k, x, x);
    OneForOneCalls(k, x, x);
  }

  // ---- the window ----

  predicate Sorted(times: seq<int>) {
    forall i, j :: 0 <= i < j < |times| ==> times[i] <= times[j]
  }

  lemma {:induction false} NoneInWindow(times: seq<int>, cutoff: int)
    requires forall i :: 0 <= i < |times| ==> times[i] < cutoff
    ensures InWindow(times, cutoff) == 0
  {
    if times != [] {
      NoneInWindow(times[..|times| - 1], cutoff);
    }
  }

  function Min(a: nat, b: nat): nat {
    if a < b then a else b
  }

  /** Of times in order, those in the window are the latest ones, so a suffix
      counts as many as it can hold. */
  lemma {:induction false} SuffixCounts(times: seq<int>, cutoff: int, n: nat)
    requires Sorted(times) && n <= |times|
    ensures InWindow(times[|times| - n..], cutoff) == Min(InWindow(times, cutoff), n)
  {
    if n > 0 {
      var last := |times| - 1;
      var suffix := times[|times| - n..];
      assert suffix[..n - 1] == times[..last][last - (n - 1)..];
      if times[last] >= cutoff {
        SuffixCounts(times[..last], cutoff, n - 1);
      } else {
        NoneInWindow(times, cutoff);
        NoneInWindow(suffix, cutoff);
      }
    } else {
      assert times[|times|..] == [];
    }
  }

  /** MAIN RESULT. With a clock that never goes back, a report on a running
      supervisor escalates exactly when more failures than allowed lie in the
      window, counted over all failures ever reported, although the ring keeps
      only the last 256. */
  lemma EscalatesIff(s: Sup, i: int, at: int, now: int)
    requires s.state == SupRunning && 0 <= i < |s.kids.children|
    requires Sorted(s.history + [at]) && s.window > 0 && s.maxRestarts > 0
    ensures ChildFailed(s, i, at, now).code == -2 <==>
            Min(InWindow(s.history + [at], now - s.window), MAX_HISTORY) > s.maxRestarts
    ensures s.maxRestarts < MAX_HISTORY ==>
              (ChildFailed(s, i, at, now).code == -2 <==> InWindow(s.history + [at], now - s.window) > s.maxRestarts)
    ensures s.maxRestarts >= MAX_HISTORY ==> ChildFailed(s, i, at, now).code == 0
  {
    hide InWindow;
    hide StopDown;
    hide Apply;
    KeptCounts(s.history + [at], now - s.window);
    hide Kept;
  }

  /** What the ring keeps holds as many times in the window as it can. */
  lemma KeptCounts(times: seq<int>, cutoff: int)
    requires Sorted(times)
    ensures InWindow(Kept(times), cutoff) == Min(InWindow(times, cutoff), MAX_HISTORY)
  {
    hide InWindow;
    if |times| > MAX_HISTORY {
      SuffixCounts(times, cutoff, MAX_HISTORY);
    }
  }

  /** Escalation stops every child, and until a new start nothing is done. */
  lemma EscalationStopsAll(s: Sup, i: int, at: int, now: int)
    requires ChildFailed(s, i, at, now).code == -2
    ensures var e := ChildFailed(s, i, at, now).s;
            && e.state == Escalated
            && (forall j :: 0 <= j < |e.kids.children| ==> e.kids.children[j].state == Stopped)
            && (forall j, at', now' :: ChildFailed(e, j, at', now') == Report(e, -1))
  {
    var k := Marked(s.kids, i);
    AllStopped(k);
    hide StopDown;
    hide Recent;
  }

  // ---- runs ----

  /** Failure times never go back, and failures are reported of running
      children. */
  predicate Fair(s: Sup, e: Event) {
    ReportsRunning(s, e) && (e.Fail? ==> Sorted(s.history + [e.at]))
  }

  ghost predicate Run(s: Sup, events: seq<Event>, s': Sup)
    decreases |events|
  {
    if events == [] then s' == s else Fair(s, events[0]) && Run(Step(s, events[0]), events[1..], s')
  }

  function New(strategy: Strategy, maxRestarts: int, window: int): Sup {
    Sup(Kids([], []), strategy, maxRestarts, if window > 0 then window else DEFAULT_WINDOW, SupStopped, [])
  }

  ghost predicate Inv(s: Sup) {
    Settled(s.kids) && AllBalanced(s.kids) && Sorted(s.history) && s.window > 0
    && (s.state == Escalated ==> forall i :: 0 <= i < |s.kids.children| ==> s.kids.children[i].state == Stopped)
  }

  lemma HistoryKept(s: Sup, e: Event)
    requires Sorted(s.history) && Fair(s, e)
    ensures Sorted(Step(s, e).history) && s.history <= Step(s, e).history && Step(s, e).window == s.window
  {
    hide Recent;
    hide StopDown;
    hide Apply;
    hide StartUpTo;
  }

  lemma EscalatedKept(s: Sup, e: Event)
    requires s.state == Escalated ==> forall i :: 0 <= i < |s.kids.children| ==> s.kids.children[i].state == Stopped
    ensures Step(s, e).state == Escalated ==>
              forall i :: 0 <= i < |Step(s, e).kids.children| ==> Step(s, e).kids.children[i].state == Stopped
  {
    if e.Fail? && ChildFailed(s, e.i, e.at, e.now).code == -2 {
      EscalationStopsAll(s, e.i, e.at, e.now);
    }
    hide StopDown;
    hide Recent;
    hide Apply;
    hide StartUpTo;
  }

  /** MAIN RESULT over runs. */
  lemma {:induction false} RunKeeps(s: Sup, events: seq<Event>, s': Sup)
    requires Inv(s) && Run(s, events, s')
    ensures Inv(s') && s.history <= s'.history
    decreases |events|
  {
    if events != [] {
      var e := events[0];
      StepSettles(s, e);
      StepBalances(s, e);
      HistoryKept(s, e);
      EscalatedKept(s, e);
      hide Step;
      hide Settled;
      hide AllBalanced;
      RunKeeps(Step(s, e), events[1..], s');
    }
  }

  /** From a new supervisor, whatever children are added, started, stopped and
      reported. */
  lemma SupervisorSafe(strategy: Strategy, maxRestarts: int, window: int, events: seq<Event>, s: Sup)
    requires Run(New(strategy, maxRestarts, window), events, s)
    ensures forall i :: 0 <= i < |s.kids.children| ==> s.kids.children[i].state in {Stopped, Running}
    ensures forall i :: 0 <= i < |s.kids.children| && Restartable(s.kids.children[i]) ==>
              Balanced(Calls(s.kids.log, i), s.kids.children[i].state == Running)
  {
    RunKeeps(New(strategy, maxRestarts, window), events, s);
    hide Run;
    hide Calls;
    hide Balanced;
    forall i | 0 <= i < |s.kids.children| && Restartable(s.kids.children[i])
      ensures Balanced(Calls(s.kids.log, i), s.kids.children[i].state == Running)
    {
      assert ChildBalanced(s.kids, i);
    }
  }

  /** A report on a child that does not run can come about in three calls: start,
      add a child, report it. Its stop is then called before any start. */
  lemma UnbalancedReachable(strategy: Strategy, maxRestarts: int, window: int, at: int, now: int)
    ensures var s := Step(Step(New(strategy, maxRestarts, window), Start), Add(true, true, Always));
            && Run(New(strategy, maxRestarts, window), [Start, Add(true, true, Always)], s)
            && !ChildBalanced(Step(s, Fail(0, at, now)).kids, 0)
  {
    var s0 := New(strategy, maxRestarts, window);
    var s1 := Step(s0, Start);
    var s := Step(s1, Add(true, true, Always));
    assert [Start, Add(true, true, Always)][1..] == [Add(true, true, Always)];
    assert Run(s1, [Add(true, true, Always)], s);
    assert Run(s0, [Start, Add(true, true, Always)], s);
    assert s.kids == Kids([Child(true, true, Stopped, Always, 0, 0)], []);
    FailLength(s, 0, at, now);
    ReportBalancedIff(s, 0, at, now);
    hide Run;
    hide ChildFailed;
    hide ChildBalanced;
  }

  // ---- one child over a whole run ----

  /** A report about child i, if the event is one, finds it running. */
  predicate Found(s: Sup, e: Event, i: nat) {
    e.Fail? && e.i == i && i < |s.kids.children| && s.state == SupRunning ==> s.kids.children[i].state == Running
  }

  function AfterAll(s: Sup, events: seq<Event>): Sup
    decreases |events|
  {
    if events == [] then s else AfterAll(Step(s, events[0]), events[1..])
  }

  predicate AlwaysFound(s: Sup, events: seq<Event>, i: nat)
    decreases |events|
  {
    events != [] ==> Found(s, events[0], i) && AlwaysFound(Step(s, events[0]), events[1..], i)
  }

  /** What holds of child i as long as every report found it running. */
  predicate OnTrack(s: Sup, i: nat) {
    && Settled(s.kids) && LogWithin(s.kids.log, |s.kids.children|)
    && (i < |s.kids.children| ==> ChildBalanced(s.kids, i))
  }

  /** A restartable child whose calls no longer alternate. */
  predicate OffTrack(s: Sup, i: nat) {
    && Settled(s.kids) && LogWithin(s.kids.log, |s.kids.children|)
    && i < |s.kids.children| && Restartable(s.kids.children[i]) && !Alternates(Calls(s.kids.log, i))
  }

  lemma StepLogWithin(s: Sup, e: Event)
    requires LogWithin(s.kids.log, |s.kids.children|)
    ensures LogWithin(Step(s, e).kids.log, |Step(s, e).kids.children|)
  {
    match e
    case Start => StartedLogWithin(s.kids);
    case Stop => LogsGrow(s.kids, 0);
    case Add(_, _, _) =>
    case Fail(x, at, now) =>
      FailLogWithin(s, x, at, now);
      FailLength(s, x, at, now);
      hide ChildFailed;
  }

  lemma OnTrackKept(s: Sup, e: Event, i: nat)
    requires OnTrack(s, i) && Found(s, e, i)
    ensures OnTrack(Step(s, e), i)
  {
    StepSettles(s, e);
    StepLogWithin(s, e);
    hide Settled;
    hide LogWithin;
    match e
    case Start =>
      if i < |s.kids.children| {
        StartBalanced(s.kids, i);
      }
    case Stop =>
      if i < |s.kids.children| {
        StopBalancedPlain(s.kids, i);
      }
    case Add(_, _, _) =>
      if i == |s.kids.children| {
        CallsBeyond(s.kids.log, i, i);
      }
      hide Calls;
    case Fail(x, at, now) =>
      FailLength(s, x, at, now);
      if i < |s.kids.children| && 0 <= x < |s.kids.children| && s.state == SupRunning {
        FailBalanced(s, x, at, now, i);
        hide ChildFailed;
      }
  }

  lemma StopBalancedPlain(k: Kids, i: nat)
    requires i < |k.children| && Settled(k) && ChildBalanced(k, i)
    ensures ChildBalanced(StopDown(k, |k.children|, 0), i)
  {
    StopBalanced(k, |k.children|, i);
  }

  /** No step takes calls back or changes what a child is. */
  lemma StepGrows(s: Sup, e: Event, i: nat)
    requires i < |s.kids.children|
    ensures i < |Step(s, e).kids.children|
    ensures Restartable(Step(s, e).kids.children[i]) == Restartable(s.kids.children[i])
    ensures s.kids.log <= Step(s, e).kids.log
  {
    match e
    case Start =>
      StartUpToLog(s.kids, |s.kids.children|);
      StartUpToEach(s.kids, |s.kids.children|, i);
      hide StartUpTo;
    case Stop =>
      StopDownLog(s.kids, |s.kids.children|, 0);
      StopDownEach(s.kids, |s.kids.children|, 0, i);
      hide StopDown;
    case Add(_, _, _) =>
    case Fail(x, at, now) =>
      if 0 <= x < |s.kids.children| && s.state == SupRunning {
        FailKind(s, x, at, now, i);
        FailGrows(s, x, at, now);
        hide ChildFailed;
      }
  }

  lemma RestartGrows(k: Kids, low: nat)
    ensures k.log <= StopDown(k, |k.children|, low).log && k.log <= RestartAll(k, low).log
  {
    StopDownLog(k, |k.children|, low);
    RestartUpToLog(StopDown(k, |k.children|, low), low, |k.children|);
    hide StopDown;
    hide RestartUpTo;
  }

  lemma FailKind(s: Sup, x: nat, at: int, now: int, i: nat)
    requires x < |s.kids.children| && i < |s.kids.children| && s.state == SupRunning
    ensures |ChildFailed(s, x, at, now).s.kids.children| == |s.kids.children|
    ensures Restartable(ChildFailed(s, x, at, now).s.kids.children[i]) == Restartable(s.kids.children[i])
  {
    FailLength(s, x, at, now);
    var k := Marked(s.kids, x);
    StopDownEach(k, |k.children|, 0, i);
    RestartKeepsKind(k, 0, i);
    RestartKeepsKind(k, x, i);
    if k.children[x].mode != Never {
      OneForOneLog(k, x);
    }
    hide StopDown;
    hide RestartAll;
    hide RestartStopped;
    hide StopChild;
    hide Recent;
  }

  lemma FailGrows(s: Sup, x: nat, at: int, now: int)
    requires x < |s.kids.children| && s.state == SupRunning
    ensures s.kids.log <= ChildFailed(s, x, at, now).s.kids.log
  {
    var k := Marked(s.kids, x);
    RestartGrows(k, 0);
    RestartGrows(k, x);
    hide ChildFailed;
    hide StopDown;
    hide RestartAll;
    hide RestartStopped;
    hide StopChild;
    if k.children[x].mode != Never {
      OneForOneLog(k, x);
      FailShape(s, x, at, now);
    } else {
      FailNever(s, x, at, now);
    }
  }

  lemma OffTrackKept(s: Sup, e: Event, i: nat)
    requires OffTrack(s, i)
    ensures OffTrack(Step(s, e), i)
  {
    StepSettles(s, e);
    StepLogWithin(s, e);
    StepGrows(s, e, i);
    var more := Step(s, e).kids.log[|s.kids.log|..];
    assert Step(s, e).kids.log == s.kids.log + more;
    CallsAppend(s.kids.log, more, i);
    hide Step;
    hide Settled;
    hide LogWithin;
    hide Calls;
    if Alternates(Calls(s.kids.log, i) + Calls(more, i)) {
      PrefixAlternates(Calls(s.kids.log, i), Calls(more, i));
    }
  }

  lemma PrefixAlternates(a: seq<Call>, b: seq<Call>)
    requires Alternates(a + b)
    ensures Alternates(a)
  {
    forall j | 0 <= j < |a|
      ensures a[j].StartCall? == (j % 2 == 0)
    {
      assert (a + b)[j] == a[j];
    }
  }

  /** A report on a child that does not run calls its stop out of turn. */
  lemma DerailedBy(s: Sup, e: Event, i: nat)
    requires OnTrack(s, i) && !Found(s, e, i) && Restartable(s.kids.children[i])
    ensures OffTrack(Step(s, e), i)
  {
    StepSettles(s, e);
    StepLogWithin(s, e);
    StepGrows(s, e, i);
    FailCallsStop(s, i, e.at, e.now);
    var before, after := Calls(s.kids.log, i), Calls(Step(s, e).kids.log, i);
    assert after[|before|] == StopCall(i);
    hide Calls;
    hide ChildFailed;
    hide Settled;
    hide LogWithin;
  }

  lemma {:induction false} StaysOff(s: Sup, events: seq<Event>, i: nat)
    requires OffTrack(s, i)
    ensures OffTrack(AfterAll(s, events), i)
    decreases |events|
  {
    if events != [] {
      OffTrackKept(s, events[0], i);
      hide OffTrack;
      hide Step;
      StaysOff(Step(s, events[0]), events[1..], i);
    }
  }

  /** A child is restartable for good, or never. */
  lemma {:induction false} KindKept(s: Sup, events: seq<Event>, i: nat)
    requires i < |s.kids.children|
    ensures i < |AfterAll(s, events).kids.children|
    ensures Restartable(AfterAll(s, events).kids.children[i]) == Restartable(s.kids.children[i])
    decreases |events|
  {
    if events != [] {
      StepGrows(s, events[0], i);
      hide Step;
      KindKept(Step(s, events[0]), events[1..], i);
    }
  }

  lemma {:induction false} TrackIff(s: Sup, events: seq<Event>, i: nat)
    requires OnTrack(s, i)
    requires i < |AfterAll(s, events).kids.children| && Restartable(AfterAll(s, events).kids.children[i])
    ensures Alternates(Calls(AfterAll(s, events).kids.log, i)) <==> AlwaysFound(s, events, i)
    decreases |events|
  {
    if events == [] {
      hide Calls;
    } else {
      var e := events[0];
      if Found(s, e, i) {
        OnTrackKept(s, e, i);
        hide OnTrack;
        hide Step;
        TrackIff(Step(s, e), events[1..], i);
      } else {
        KindKept(s, events, i);
        DerailedBy(s, e, i);
        hide OffTrack;
        StaysOff(Step(s, e), events[1..], i);
        DerailedCalls(AfterAll(s, events), i);
      }
    }
  }

  lemma DerailedCalls(s: Sup, i: nat)
    requires OffTrack(s, i)
    ensures !Alternates(Calls(s.kids.log, i))
  {
  }

  /** MAIN RESULT. Over every run from a new supervisor, whatever is reported:
      the starts and stops of a restartable child alternate if and only if every
      report about it that was acted on found it running. */
  lemma AlternatesIff(strategy: Strategy, maxRestarts: int, window: int, events: seq<Event>, i: nat)
    requires var s := AfterAll(New(strategy, maxRestarts, window), events);
             i < |s.kids.children| && Restartable(s.kids.children[i])
    ensures Alternates(Calls(AfterAll(New(strategy, maxRestarts, window), events).kids.log, i)) <==>
            AlwaysFound(New(strategy, maxRestarts, window), events, i)
  {
    hide AfterAll;
    hide AlwaysFound;
    TrackIff(New(strategy, maxRestarts, window), events, i);
  }
}
