/** What each call of a supervisor does, strategy by strategy: which children it
    concerns, what becomes of them, and which callbacks are called in what order. */
module SupervisorStrategies {
  import opened Supervisor
  import opened SupervisorRuns

  /** The children a failure of child x concerns. */
  predicate Concerned(strategy: Strategy, x: nat, j: nat) {
    match strategy
    case OneForOne => j == x
    case OneForAll => true
    case RestForAll => x <= j
  }

  /** The child has a stop function and does not count as stopped. */
  predicate Stoppable(s: Sup, x: nat, j: nat)
    requires j < |s.kids.children|
  {
    s.kids.children[j].hasStop && (j == x || s.kids.children[j].state != Stopped)
  }

  /** A child that is never restarted is not even stopped when it fails on its own. */
  predicate LeftAlone(s: Sup, x: nat)
    requires x < |s.kids.children|
  {
    s.strategy.OneForOne? && s.kids.children[x].mode == Never
  }

  /** A report that is acted on and does not escalate. */
  predicate Handled(s: Sup, x: nat, at: int, now: int) {
    x < |s.kids.children| && ChildFailed(s, x, at, now).code == 0
  }

  /** Without a limit, or without a window, no number of failures escalates. */
  lemma NeverEscalates(s: Sup, x: nat, at: int, now: int)
    requires x < |s.kids.children| && s.state == SupRunning && (s.maxRestarts <= 0 || s.window <= 0)
    ensures Handled(s, x, at, now)
  {
    hide Apply;
    hide StopDown;
  }

  // ---- the calls as sets ----

  lemma InEither(a: seq<Call>, b: seq<Call>, c: Call)
    ensures c in a + b <==> c in a || c in b
  {
  }

  lemma StopsStep(children: seq<Child>, n: nat, low: nat)
    requires low < n <= |children|
    ensures StopCalls(children, n, low) == StopsAt(children[n - 1], n - 1) + StopCalls(children, n - 1, low)
  {
  }

  lemma RestartsStep(children: seq<Child>, low: nat, n: nat)
    requires low < n <= |children|
    ensures RestartCalls(children, low, n) == RestartCalls(children, low, n - 1) + RestartsAt(children[n - 1], n - 1)
  {
  }

  lemma StartsStep(children: seq<Child>, n: nat)
    requires 0 < n <= |children|
    ensures StartCalls(children, n) == StartCalls(children, n - 1) + StartsAt(children[n - 1], n - 1)
  {
  }

  lemma {:induction false} StopCallsExact(children: seq<Child>, n: nat, low: nat, j: nat)
    requires n <= |children|
    ensures StopCall(j) in StopCalls(children, n, low) <==>
            low <= j < n && children[j].hasStop && children[j].state != Stopped
    decreases n
  {
    if n > low {
      StopsStep(children, n, low);
      hide StopCalls;
      StopCallsExact(children, n - 1, low, j);
      InEither(StopsAt(children[n - 1], n - 1), StopCalls(children, n - 1, low), StopCall(j));
    }
  }

  lemma {:induction false} RestartCallsExact(children: seq<Child>, low: nat, n: nat, j: nat)
    requires n <= |children|
    ensures StartCall(j) in RestartCalls(children, low, n) <==>
            low <= j < n && children[j].hasStart && children[j].mode != Never && children[j].state != Running
    decreases n
  {
    if n > low {
      RestartsStep(children, low, n);
      hide RestartCalls;
      RestartCallsExact(children, low, n - 1, j);
      InEither(RestartCalls(children, low, n - 1), RestartsAt(children[n - 1], n - 1), StartCall(j));
    }
  }

  lemma {:induction false} StartCallsExact(children: seq<Child>, n: nat, j: nat)
    requires n <= |children|
    ensures StartCall(j) in StartCalls(children, n) <==> j < n && children[j].hasStart && children[j].state != Running
    decreases n
  {
    if n > 0 {
      StartsStep(children, n);
      hide StartCalls;
      StartCallsExact(children, n - 1, j);
      InEither(StartCalls(children, n - 1), StartsAt(children[n - 1], n - 1), StartCall(j));
    }
  }

  lemma {:induction false} StartsAscend(children: seq<Child>, n: nat)
    requires n <= |children|
    ensures Ascending(StartCalls(children, n), 0, n)
    decreases n
  {
    if n > 0 {
      StartsStep(children, n);
      hide StartCalls;
      StartsAscend(children, n - 1);
      assert Ascending(StartCalls(children, n - 1) + [StartCall(n - 1)], 0, n);
    }
  }

  // ---- one strategy at a time ----

  /** From child `low` on: stop downwards, then restart upwards. */
  lemma RestartAllExact(k: Kids, low: nat) returns (stops: seq<Call>, starts: seq<Call>)
    ensures RestartAll(k, low).log == k.log + stops + starts
    ensures Descending(stops, low, |k.children|) && Ascending(starts, low, |k.children|)
    ensures forall j: nat {:trigger StopCall(j)} :: StopCall(j) in stops <==>
              low <= j < |k.children| && k.children[j].hasStop && k.children[j].state != Stopped
    ensures forall j: nat {:trigger StartCall(j)} :: StartCall(j) in starts <==>
              low <= j < |k.children| && k.children[j].hasStart && k.children[j].mode != Never
  {
    var n := |k.children|;
    var stopped := StopDown(k, n, low).children;
    stops, starts := StopCalls(k.children, n, low), RestartCalls(stopped, low, n);
    RestartAllOrder(k, low);
    forall j: nat {:trigger StopCall(j)} {:trigger StartCall(j)}
      ensures StopCall(j) in stops <==> low <= j < n && k.children[j].hasStop && k.children[j].state != Stopped
      ensures StartCall(j) in starts <==> low <= j < n && k.children[j].hasStart && k.children[j].mode != Never
    {
      StopCallsExact(k.children, n, low, j);
      RestartCallsExact(stopped, low, n, j);
      if low <= j < n {
        StopDownEach(k, n, low, j);
      }
    }
  }

  lemma RestartAllChild(k: Kids, low: nat, j: nat)
    requires j < |k.children|
    ensures RestartAll(k, low).children[j] ==
            if j < low then k.children[j]
            else if k.children[j].mode == Never then k.children[j].(state := Stopped)
            else k.children[j].(state := if k.children[j].hasStart then Running else Stopped,
                                restarts := k.children[j].restarts + 1, failures := 0)
  {
    var n := |k.children|;
    StopDownEach(k, n, low, j);
    RestartUpToEach(StopDown(k, n, low), low, n, j);
  }

  /** Which case of Apply a handled report runs. */
  lemma HandledIs(s: Sup, x: nat, at: int, now: int)
    requires Handled(s, x, at, now)
    ensures s.state == SupRunning
    ensures ChildFailed(s, x, at, now).s == s.(kids := Apply(s.strategy, Marked(s.kids, x), x), history := s.history + [at])
  {
    hide Apply;
    hide StopDown;
    hide Recent;
  }

  lemma ApplyOne(k: Kids, x: nat)
    requires x < |k.children| && k.children[x].state == Failed
    ensures var c := k.children[x];
            && Apply(OneForOne, k, x).children ==
               k.children[x := if c.mode == Never then c.(state := Stopped)
                               else c.(state := if c.hasStart then Running else Stopped, restarts := c.restarts + 1, failures := 0)]
            && Apply(OneForOne, k, x).log ==
               k.log + (if c.mode != Never && c.hasStop then [StopCall(x)] else [])
                     + (if c.mode != Never && c.hasStart then [StartCall(x)] else [])
  {
    if k.children[x].mode != Never {
      OneForOneLog(k, x);
      hide RestartStopped;
      hide StopChild;
    }
  }

  /** MAIN RESULT. The callbacks of a handled report: stops from the last child
      down, then starts upwards, of exactly the children the strategy concerns. */
  lemma ReportCalls(s: Sup, x: nat, at: int, now: int) returns (stops: seq<Call>, starts: seq<Call>)
    requires Handled(s, x, at, now)
    ensures ChildFailed(s, x, at, now).s.kids.log == s.kids.log + stops + starts
    ensures Descending(stops, 0, |s.kids.children|) && Ascending(starts, 0, |s.kids.children|)
    ensures forall j: nat {:trigger StopCall(j)} :: StopCall(j) in stops <==>
              j < |s.kids.children| && Concerned(s.strategy, x, j) && Stoppable(s, x, j) && !LeftAlone(s, x)
    ensures forall j: nat {:trigger StartCall(j)} :: StartCall(j) in starts <==>
              j < |s.kids.children| && Concerned(s.strategy, x, j) &&
              s.kids.children[j].hasStart && s.kids.children[j].mode != Never
  {
    HandledIs(s, x, at, now);
    var k, c := Marked(s.kids, x), s.kids.children[x];
    hide ChildFailed;
    hide RestartAll;
    match s.strategy
    case OneForOne =>
      ApplyOne(k, x);
      stops := if c.mode != Never && c.hasStop then [StopCall(x)] else [];
      starts := if c.mode != Never && c.hasStart then [StartCall(x)] else [];
      hide Apply;
    case OneForAll =>
      stops, starts := RestartAllExact(k, 0);
    case RestForAll =>
      stops, starts := RestartAllExact(k, x);
  }

  /** What a handled report makes of a child it concerns. */
  function AfterReport(c: Child, failed: bool): Child {
    if c.mode == Never then c.(state := Stopped, failures := c.failures + (if failed then 1 else 0))
    else c.(state := if c.hasStart then Running else Stopped, restarts := c.restarts + 1, failures := 0)
  }

  /** MAIN RESULT. The children after a handled report: those the strategy does
      not concern are as before, with their calls; the others are restarted once,
      or stopped when they are never restarted. */
  lemma ReportChildren(s: Sup, x: nat, at: int, now: int, j: nat)
    requires Handled(s, x, at, now) && j < |s.kids.children|
    ensures |ChildFailed(s, x, at, now).s.kids.children| == |s.kids.children|
    ensures Concerned(s.strategy, x, j) ==>
              ChildFailed(s, x, at, now).s.kids.children[j] == AfterReport(s.kids.children[j], j == x)
    ensures !Concerned(s.strategy, x, j) ==>
              && ChildFailed(s, x, at, now).s.kids.children[j] == s.kids.children[j]
              && Calls(ChildFailed(s, x, at, now).s.kids.log, j) == Calls(s.kids.log, j)
    ensures ChildFailed(s, x, at, now).s.history == s.history + [at] && ChildFailed(s, x, at, now).s.state == SupRunning
  {
    HandledIs(s, x, at, now);
    var k := Marked(s.kids, x);
    if !Concerned(s.strategy, x, j) {
      Unconcerned(s, x, at, now, j);
    }
    hide ChildFailed;
    match s.strategy
    case OneForOne =>
      ApplyOne(k, x);
      hide Apply;
    case OneForAll =>
      RestartAllChild(k, 0, j);
      hide RestartAll;
    case RestForAll =>
      RestartAllChild(k, x, j);
      hide RestartAll;
  }

  lemma Unconcerned(s: Sup, x: nat, at: int, now: int, j: nat)
    requires Handled(s, x, at, now) && j < |s.kids.children| && !Concerned(s.strategy, x, j)
    ensures Calls(ChildFailed(s, x, at, now).s.kids.log, j) == Calls(s.kids.log, j)
  {
    var stops, starts := ReportCalls(s, x, at, now);
    hide ChildFailed;
    assert StopCall(j) !in stops && StartCall(j) !in starts;
    NotCalled(stops, j);
    NotCalled(starts, j);
    CallsAppend(s.kids.log + stops, starts, j);
    CallsAppend(s.kids.log, stops, j);
    hide Calls;
    assert Calls(s.kids.log, j) + [] + [] == Calls(s.kids.log, j);
  }

  lemma {:induction false} NotCalled(calls: seq<Call>, j: nat)
    requires StopCall(j) !in calls && StartCall(j) !in calls
    ensures Calls(calls, j) == []
  {
    if calls != [] {
      var last := calls[|calls| - 1];
      assert last in calls && (last == StopCall(last.i) || last == StartCall(last.i));
      NotCalled(calls[..|calls| - 1], j);
    }
  }

  // ---- escalation, start and stop ----

  /** StopDown from the last child: who is called, and what is left. */
  lemma StopAllExact(k: Kids) returns (stops: seq<Call>)
    ensures StopDown(k, |k.children|, 0).log == k.log + stops && Descending(stops, 0, |k.children|)
    ensures forall j: nat {:trigger StopCall(j)} :: StopCall(j) in stops <==>
              j < |k.children| && k.children[j].hasStop && k.children[j].state != Stopped
    ensures forall j: nat :: j < |k.children| ==>
              StopDown(k, |k.children|, 0).children[j] == k.children[j].(state := Stopped)
  {
    var n := |k.children|;
    stops := StopCalls(k.children, n, 0);
    StopDownLog(k, n, 0);
    StopsDescend(k.children, n, 0);
    forall j: nat {:trigger StopCall(j)}
      ensures StopCall(j) in stops <==> j < n && k.children[j].hasStop && k.children[j].state != Stopped
    {
      StopCallsExact(k.children, n, 0, j);
    }
    forall j: nat | j < n
      ensures StopDown(k, n, 0).children[j] == k.children[j].(state := Stopped)
    {
      StopDownEach(k, n, 0, j);
    }
  }

  /** An escalating report stops every child, the last first, and starts none. */
  lemma EscalationCalls(s: Sup, x: nat, at: int, now: int) returns (stops: seq<Call>)
    requires x < |s.kids.children| && ChildFailed(s, x, at, now).code == -2
    ensures ChildFailed(s, x, at, now).s.kids.log == s.kids.log + stops && Descending(stops, 0, |s.kids.children|)
    ensures forall j: nat {:trigger StopCall(j)} :: StopCall(j) in stops <==> j < |s.kids.children| && Stoppable(s, x, j)
    ensures |ChildFailed(s, x, at, now).s.kids.children| == |s.kids.children|
    ensures forall j: nat :: j < |s.kids.children| ==>
              ChildFailed(s, x, at, now).s.kids.children[j] ==
              s.kids.children[j].(state := Stopped, failures := s.kids.children[j].failures + if j == x then 1 else 0)
  {
    var k := Marked(s.kids, x);
    stops := StopAllExact(k);
    hide StopDown;
    hide Recent;
    hide Apply;
  }

  /** Starting a supervisor that does not run starts, in order, every child that
      can be started and does not run. */
  lemma StartsInOrder(s: Sup) returns (starts: seq<Call>)
    ensures StartSup(s).state == SupRunning && |StartSup(s).kids.children| == |s.kids.children|
    ensures StartSup(s).kids.log == s.kids.log + starts && Ascending(starts, 0, |s.kids.children|)
    ensures forall j: nat {:trigger StartCall(j)} :: StartCall(j) in starts <==>
              j < |s.kids.children| && s.state != SupRunning &&
              s.kids.children[j].hasStart && s.kids.children[j].state != Running
    ensures forall j: nat :: j < |s.kids.children| ==>
              StartSup(s).kids.children[j] ==
              if s.state != SupRunning && s.kids.children[j].hasStart then s.kids.children[j].(state := Running)
              else s.kids.children[j]
  {
    var n := |s.kids.children|;
    starts := if s.state == SupRunning then [] else StartCalls(s.kids.children, n);
    StartUpToLog(s.kids, n);
    StartsAscend(s.kids.children, n);
    forall j: nat {:trigger StartCall(j)}
      ensures StartCall(j) in StartCalls(s.kids.children, n) <==>
              j < n && s.kids.children[j].hasStart && s.kids.children[j].state != Running
    {
      StartCallsExact(s.kids.children, n, j);
    }
    forall j: nat | j < n
      ensures StartUpTo(s.kids, n).children[j] ==
              if s.kids.children[j].hasStart then s.kids.children[j].(state := Running) else s.kids.children[j]
    {
      StartUpToEach(s.kids, n, j);
    }
    hide StartUpTo;
    hide StartCalls;
  }

  /** Stopping a supervisor, whatever its state but stopped, stops every child. */
  lemma StopsInOrder(s: Sup) returns (stops: seq<Call>)
    ensures StopSup(s).state == SupStopped && |StopSup(s).kids.children| == |s.kids.children|
    ensures StopSup(s).kids.log == s.kids.log + stops && Descending(stops, 0, |s.kids.children|)
    ensures forall j: nat {:trigger StopCall(j)} :: StopCall(j) in stops <==>
              j < |s.kids.children| && s.state != SupStopped &&
              s.kids.children[j].hasStop && s.kids.children[j].state != Stopped
    ensures s.state != SupStopped ==>
              forall j: nat :: j < |s.kids.children| ==> StopSup(s).kids.children[j] == s.kids.children[j].(state := Stopped)
    ensures s.state == SupStopped ==> StopSup(s) == s
  {
    var all := StopAllExact(s.kids);
    stops := if s.state == SupStopped then [] else all;
    hide StopDown;
  }

  /** A child joins, stopped and with nothing counted, while there are fewer
      than 64; nothing is called. */
  lemma AddedLast(s: Sup, hasStart: bool, hasStop: bool, mode: Mode)
    ensures AddChild(s, hasStart, hasStop, mode).kids.log == s.kids.log
    ensures AddChild(s, hasStart, hasStop, mode).kids.children ==
            s.kids.children + if |s.kids.children| < 64 then [Child(hasStart, hasStop, Stopped, mode, 0, 0)] else []
  {
    assert s.kids.children + [] == s.kids.children;
  }
}
