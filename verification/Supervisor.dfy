/** Supervisors: starting and stopping children, the three restart strategies,
    and escalation by a sliding window of failures. */
module Supervisor {
  import opened Rings

  const MAX_CHILDREN := 64
  const MAX_HISTORY := 256
  const DEFAULT_WINDOW := 60

  datatype ChildState = Stopped | Running | Failed | Restarting
  datatype Mode = Always | OnFailure | Never
  datatype Strategy = OneForOne | OneForAll | RestForAll
  datatype State = SupStopped | SupRunning | ShuttingDown | Escalated

  /** Whether the callbacks are set; either may be missing. */
  datatype Child = Child(hasStart: bool, hasStop: bool, state: ChildState, mode: Mode, restarts: nat, failures: nat)

  /** The calls of callbacks, in order. */
  datatype Call = StartCall(i: nat) | StopCall(i: nat)

  datatype Kids = Kids(children: seq<Child>, log: seq<Call>)

  // ---- one child ----

  function StartChild(k: Kids, i: nat): (r: Kids)
    requires i < |k.children|
    ensures |r.children| == |k.children|
  {
    var c := k.children[i];
    if c.state == Running || !c.hasStart then k
    else Kids(k.children[i := c.(state := Running)], k.log + [StartCall(i)])
  }

  function StopChild(k: Kids, i: nat): (r: Kids)
    requires i < |k.children|
    ensures |r.children| == |k.children|
  {
    var c := k.children[i];
    if c.state == Stopped then k
    else Kids(k.children[i := c.(state := Stopped)], k.log + (if c.hasStop then [StopCall(i)] else []))
  }

  /** Count the restart, start, and forget the failures. */
  function RestartStopped(k: Kids, i: nat): (r: Kids)
    requires i < |k.children|
    ensures |r.children| == |k.children|
  {
    var counted := k.(children := k.children[i := k.children[i].(restarts := k.children[i].restarts + 1)]);
    var started := StartChild(counted, i);
    started.(children := started.children[i := started.children[i].(failures := 0)])
  }

  // ---- several children ----

  /** Stop children n-1 down to low. */
  function StopDown(k: Kids, n: nat, low: nat): (r: Kids)
    requires n <= |k.children|
    ensures |r.children| == |k.children|
    decreases n
  {
    if n <= low then k else StopDown(StopChild(k, n - 1), n - 1, low)
  }

  /** Start the children below n, in order. */
  function StartUpTo(k: Kids, n: nat): (r: Kids)
    requires n <= |k.children|
    ensures |r.children| == |k.children|
    decreases n
  {
    if n == 0 then k else StartChild(StartUpTo(k, n - 1), n - 1)
  }

  /** Restart children low to n-1 in order, except those never restarted. */
  function RestartUpTo(k: Kids, low: nat, n: nat): (r: Kids)
    requires n <= |k.children|
    ensures |r.children| == |k.children|
    decreases n
  {
    if n <= low then k
    else
      var before := RestartUpTo(k, low, n - 1);
      if before.children[n - 1].mode == Never then before else RestartStopped(before, n - 1)
  }

  function RestartAll(k: Kids, low: nat): (r: Kids)
    ensures |r.children| == |k.children|
  {
    RestartUpTo(StopDown(k, |k.children|, low), low, |k.children|)
  }

  function Apply(strategy: Strategy, k: Kids, i: nat): (r: Kids)
    requires i < |k.children|
    ensures |r.children| == |k.children|
  {
    match strategy
    case OneForOne =>
      if k.children[i].mode == Never then k.(children := k.children[i := k.children[i].(state := Stopped)])
      else RestartStopped(StopChild(k, i), i)
    case OneForAll => RestartAll(k, 0)
    case RestForAll => RestartAll(k, i)
  }

  // ---- the supervisor ----

  /** `history` lists the times of all failures ever reported. */
  datatype Sup = Sup(kids: Kids, strategy: Strategy, maxRestarts: int, window: int, state: State, history: seq<int>)

  function InWindow(history: seq<int>, cutoff: int): (n: nat)
    ensures n <= |history|
  {
    if history == [] then 0
    else InWindow(history[..|history| - 1], cutoff) + (if history[|history| - 1] >= cutoff then 1 else 0)
  }

  /** The last 256 failures: what the ring keeps. */
  function Kept(history: seq<int>): seq<int> {
    Last(history, MAX_HISTORY)
  }

  function Recent(s: Sup, now: int): nat {
    if s.window <= 0 then 0 else InWindow(Kept(s.history), now - s.window)
  }

  datatype Report = Report(s: Sup, code: int)

  /** A failure report: recorded at `at`, judged at `now`. */
  function ChildFailed(s: Sup, i: int, at: int, now: int): Report {
    if i < 0 || i >= |s.kids.children| || s.state != SupRunning then Report(s, -1)
    else
      var c := s.kids.children[i];
      var kids := s.kids.(children := s.kids.children[i := c.(state := Failed, failures := c.failures + 1)]);
      var s1 := s.(kids := kids, history := s.history + [at]);
      if s.maxRestarts > 0 && Recent(s1, now) > s.maxRestarts
      then Report(s1.(state := Escalated, kids := StopDown(kids, |kids.children|, 0)), -2)
      else Report(s1.(kids := Apply(s.strategy, kids, i)), 0)
  }

  function StartSup(s: Sup): Sup {
    if s.state == SupRunning then s
    else s.(state := SupRunning, kids := StartUpTo(s.kids, |s.kids.children|))
  }

  function StopSup(s: Sup): Sup {
    if s.state == SupStopped then s
    else s.(state := SupStopped, kids := StopDown(s.kids, |s.kids.children|, 0))
  }

  function AddChild(s: Sup, hasStart: bool, hasStop: bool, mode: Mode): Sup {
    if |s.kids.children| >= MAX_CHILDREN then s
    else s.(kids := s.kids.(children := s.kids.children + [Child(hasStart, hasStop, Stopped, mode, 0, 0)]))
  }

  datatype Event = Start | Stop | Add(hasStart: bool, hasStop: bool, mode: Mode) | Fail(i: int, at: int, now: int)

  function Step(s: Sup, e: Event): Sup {
    match e
    case Start => StartSup(s)
    case Stop => StopSup(s)
    case Add(a, b, mode) => AddChild(s, a, b, mode)
    case Fail(i, at, now) => ChildFailed(s, i, at, now).s
  }

  // ---- stopping and starting, child by child ----

  /** What StopDown leaves of each child, and what it calls. */
  lemma {:induction false} StopDownEach(k: Kids, n: nat, low: nat, i: nat)
    requires n <= |k.children| && i < |k.children|
    ensures StopDown(k, n, low).children[i] ==
            if low <= i < n then k.children[i].(state := Stopped) else k.children[i]
    decreases n
  {
    if n > low {
      StopDownEach(StopChild(k, n - 1), n - 1, low, i);
    }
  }

  /** The calls stopping, restarting and starting make for one child. */
  function StopsAt(c: Child, i: nat): seq<Call> {
    if c.state != Stopped && c.hasStop then [StopCall(i)] else []
  }

  function RestartsAt(c: Child, i: nat): seq<Call> {
    if c.mode != Never && c.state != Running && c.hasStart then [StartCall(i)] else []
  }

  function StartsAt(c: Child, i: nat): seq<Call> {
    if c.state != Running && c.hasStart then [StartCall(i)] else []
  }

  /** The children that are stopped by a call, from the last down. */
  function StopCalls(children: seq<Child>, n: nat, low: nat): seq<Call>
    requires n <= |children|
    decreases n
  {
    if n <= low then [] else StopsAt(children[n - 1], n - 1) + StopCalls(children, n - 1, low)
  }

  lemma {:induction false} StopCallsSame(a: seq<Child>, b: seq<Child>, n: nat, low: nat)
    requires n <= |a| == |b| && forall i :: 0 <= i < n ==> a[i] == b[i]
    ensures StopCalls(a, n, low) == StopCalls(b, n, low)
    decreases n
  {
    hide StopsAt;
    if n > low {
      StopCallsSame(a, b, n - 1, low);
    }
  }

  lemma {:induction false} StopDownLog(k: Kids, n: nat, low: nat)
    requires n <= |k.children|
    ensures StopDown(k, n, low).log == k.log + StopCalls(k.children, n, low)
    decreases n
  {
    if n > low {
      var k1 := StopChild(k, n - 1);
      assert k1.log == k.log + StopsAt(k.children[n - 1], n - 1);
      StopDownLog(k1, n - 1, low);
      StopCallsSame(k.children, k1.children, n - 1, low);
      hide StopChild;
      hide StopsAt;
    }
  }

  function Restarted(c: Child): Child {
    if c.mode == Never then c
    else c.(restarts := c.restarts + 1, failures := 0, state := if c.hasStart then Running else c.state)
  }

  lemma {:induction false} RestartUpToEach(k: Kids, low: nat, n: nat, i: nat)
    requires n <= |k.children| && i < |k.children|
    ensures RestartUpTo(k, low, n).children[i] == if low <= i < n then Restarted(k.children[i]) else k.children[i]
    decreases n
  {
    if n > low {
      RestartUpToEach(k, low, n - 1, i);
      RestartUpToEach(k, low, n - 1, n - 1);
    }
  }

  /** The children that are started by a call, in order. */
  function RestartCalls(children: seq<Child>, low: nat, n: nat): seq<Call>
    requires n <= |children|
    decreases n
  {
    if n <= low then [] else RestartCalls(children, low, n - 1) + RestartsAt(children[n - 1], n - 1)
  }

  lemma {:induction false} RestartUpToLog(k: Kids, low: nat, n: nat)
    requires n <= |k.children|
    ensures RestartUpTo(k, low, n).log == k.log + RestartCalls(k.children, low, n)
    decreases n
  {
    if n > low {
      RestartUpToLog(k, low, n - 1);
      RestartUpToEach(k, low, n - 1, n - 1);
      var before := RestartUpTo(k, low, n - 1);
      assert RestartUpTo(k, low, n).log == before.log + RestartsAt(before.children[n - 1], n - 1);
      hide RestartStopped;
      hide RestartsAt;
    }
  }

  lemma {:induction false} StartUpToEach(k: Kids, n: nat, i: nat)
    requires n <= |k.children| && i < |k.children|
    ensures StartUpTo(k, n).children[i] ==
            if i < n && k.children[i].hasStart then k.children[i].(state := Running) else k.children[i]
    decreases n
  {
    if n > 0 {
      StartUpToEach(k, n - 1, i);
      StartUpToEach(k, n - 1, n - 1);
    }
  }

  function StartCalls(children: seq<Child>, n: nat): seq<Call>
    requires n <= |children|
    decreases n
  {
    if n == 0 then [] else StartCalls(children, n - 1) + StartsAt(children[n - 1], n - 1)
  }

  lemma {:induction false} StartUpToLog(k: Kids, n: nat)
    requires n <= |k.children|
    ensures StartUpTo(k, n).log == k.log + StartCalls(k.children, n)
    decreases n
  {
    if n > 0 {
      StartUpToLog(k, n - 1);
      StartUpToEach(k, n - 1, n - 1);
    }
  }

  // ---- order of the calls ----

  /** Stops only, of children low to n-1, from the last to the first. */
  predicate Descending(s: seq<Call>, low: nat, n: nat) {
    && (forall a {:trigger s[a]} :: 0 <= a < |s| ==> s[a].StopCall? && low <= s[a].i < n)
    && (forall a, b {:trigger s[a], s[b]} :: 0 <= a < b < |s| ==> s[a].i > s[b].i)
  }

  /** Starts only, of children low to n-1, from the first to the last. */
  predicate Ascending(s: seq<Call>, low: nat, n: nat) {
    && (forall a {:trigger s[a]} :: 0 <= a < |s| ==> s[a].StartCall? && low <= s[a].i < n)
    && (forall a, b {:trigger s[a], s[b]} :: 0 <= a < b < |s| ==> s[a].i < s[b].i)
  }

  lemma {:induction false} StopsDescend(children: seq<Child>, n: nat, low: nat)
    requires n <= |children|
    ensures Descending(StopCalls(children, n, low), low, n)
    decreases n
  {
    if n > low {
      StopsDescend(children, n - 1, low);
      var rest := StopCalls(children, n - 1, low);
      assert Descending(rest, low, n - 1);
      assert Descending([StopCall(n - 1)] + rest, low, n);
    }
  }

  lemma {:induction false} RestartsAscend(children: seq<Child>, low: nat, n: nat)
    requires n <= |children|
    ensures Ascending(RestartCalls(children, low, n), low, n)
    decreases n
  {
    if n > low {
      RestartsAscend(children, low, n - 1);
      var rest := RestartCalls(children, low, n - 1);
      assert Ascending(rest, low, n - 1);
      assert Ascending(rest + [StartCall(n - 1)], low, n);
    }
  }

  /** MAIN RESULT for the two strategies that restart several children: all
      stops come before all starts, the stops from last to first, the starts
      from first to last, and nothing below `low` is touched. */
  lemma RestartAllOrder(k: Kids, low: nat)
    ensures var r := RestartAll(k, low);
            var stopped := StopDown(k, |k.children|, low).children;
            var stops, starts := StopCalls(k.children, |k.children|, low), RestartCalls(stopped, low, |k.children|);
            && r.log == k.log + stops + starts
            && Descending(stops, low, |k.children|) && Ascending(starts, low, |k.children|)
            && (forall i :: 0 <= i < low && i < |k.children| ==> r.children[i] == k.children[i])
  {
    var n := |k.children|;
    var stopped := StopDown(k, n, low);
    StopDownLog(k, n, low);
    RestartUpToLog(stopped, low, n);
    StopsDescend(k.children, n, low);
    RestartsAscend(stopped.children, low, n);
    forall i | 0 <= i < low && i < n
      ensures RestartAll(k, low).children[i] == k.children[i]
    {
      StopDownEach(k, n, low, i);
      RestartUpToEach(stopped, low, n, i);
    }
  }

  // ---- no child between states ----

  predicate Settled(k: Kids) {
    forall i :: 0 <= i < |k.children| ==> k.children[i].state == Stopped || k.children[i].state == Running
  }

  predicate SettledExcept(k: Kids, x: nat) {
    forall i :: 0 <= i < |k.children| && i != x ==> k.children[i].state == Stopped || k.children[i].state == Running
  }

  lemma RestartAllSettles(k: Kids, low: nat, x: nat)
    requires SettledExcept(k, x) && low <= x < |k.children|
    ensures Settled(RestartAll(k, low))
  {
    var n := |k.children|;
    forall i | 0 <= i < n
      ensures RestartAll(k, low).children[i].state == Stopped || RestartAll(k, low).children[i].state == Running
    {
      StopDownEach(k, n, low, i);
      RestartUpToEach(StopDown(k, n, low), low, n, i);
    }
  }

  lemma AllStopped(k: Kids)
    ensures forall i :: 0 <= i < |k.children| ==> StopDown(k, |k.children|, 0).children[i].state == Stopped
  {
    forall i | 0 <= i < |k.children|
      ensures StopDown(k, |k.children|, 0).children[i].state == Stopped
    {
      StopDownEach(k, |k.children|, 0, i);
    }
  }

  /** MAIN RESULT. No call leaves a child failed or restarting. */
  lemma StepSettles(s: Sup, e: Event)
    requires Settled(s.kids)
    ensures Settled(Step(s, e).kids)
  {
    match e
    case Start =>
      forall i | 0 <= i < |s.kids.children|
        ensures StartUpTo(s.kids, |s.kids.children|).children[i].state in {Stopped, Running}
      {
        StartUpToEach(s.kids, |s.kids.children|, i);
      }
    case Stop =>
      AllStopped(s.kids);
    case Add(_, _, _) =>
    case Fail(i, at, now) =>
      if 0 <= i < |s.kids.children| && s.state == SupRunning {
        var c := s.kids.children[i];
        var k := s.kids.(children := s.kids.children[i := c.(state := Failed, failures := c.failures + 1)]);
        AllStopped(k);
        RestartAllSettles(k, 0, i);
        RestartAllSettles(k, i, i);
        hide RestartAll;
        hide StopDown;
      }
  }

  // ---- starts and stops alternate ----

  /** The calls that concern one child. */
  function Calls(log: seq<Call>, i: nat): seq<Call> {
    if log == [] then []
    else Calls(log[..|log| - 1], i) + (if log[|log| - 1].i == i then [log[|log| - 1]] else [])
  }

  /** start, stop, start, stop, ... */
  predicate Alternates(calls: seq<Call>) {
    forall a :: 0 <= a < |calls| ==> calls[a].StartCall? == (a % 2 == 0)
  }

  predicate Restartable(c: Child) {
    c.hasStart && c.hasStop && c.mode != Never
  }

  /** The calls alternate, and the child runs exactly when a start came last. */
  predicate Balanced(calls: seq<Call>, running: bool) {
    Alternates(calls) && (running <==> |calls| % 2 == 1)
  }

  lemma {:induction false} CallsAppend(a: seq<Call>, b: seq<Call>, i: nat)
    ensures Calls(a + b, i) == Calls(a, i) + Calls(b, i)
  {
    if b == [] {
      assert a + b == a;
    } else {
      assert (a + b)[..|a + b| - 1] == a + b[..|b| - 1];
      CallsAppend(a, b[..|b| - 1], i);
    }
  }

  lemma {:induction false} CallsOfStops(children: seq<Child>, n: nat, low: nat, i: nat)
    requires n <= |children|
    ensures Calls(StopCalls(children, n, low), i) == if low <= i < n then StopsAt(children[i], i) else []
    decreases n
  {
    NoCalls(i);
    hide Calls;
    if n > low {
      CallsOfStops(children, n - 1, low, i);
      CallsAppend(StopsAt(children[n - 1], n - 1), StopCalls(children, n - 1, low), i);
      OneCall(StopCall(n - 1), i);
      assert Calls(StopsAt(children[n - 1], n - 1), i) == if i == n - 1 then StopsAt(children[i], i) else [];
      hide StopsAt;
    }
  }

  lemma NoCalls(i: nat)
    ensures Calls([], i) == []
  {
  }

  lemma OneCall(c: Call, i: nat)
    ensures Calls([c], i) == if c.i == i then [c] else []
  {
    assert [c][..0] == [];
  }

  lemma {:induction false} CallsOfRestarts(children: seq<Child>, low: nat, n: nat, i: nat)
    requires n <= |children|
    ensures Calls(RestartCalls(children, low, n), i) == if low <= i < n then RestartsAt(children[i], i) else []
    decreases n
  {
    NoCalls(i);
    hide Calls;
    if n > low {
      CallsOfRestarts(children, low, n - 1, i);
      CallsAppend(RestartCalls(children, low, n - 1), RestartsAt(children[n - 1], n - 1), i);
      OneCall(StartCall(n - 1), i);
      assert Calls(RestartsAt(children[n - 1], n - 1), i) == if i == n - 1 then RestartsAt(children[i], i) else [];
      hide RestartsAt;
    }
  }

  lemma {:induction false} CallsOfStarts(children: seq<Child>, n: nat, i: nat)
    requires n <= |children|
    ensures Calls(StartCalls(children, n), i) == if i < n then StartsAt(children[i], i) else []
    decreases n
  {
    NoCalls(i);
    hide Calls;
    if n > 0 {
      CallsOfStarts(children, n - 1, i);
      CallsAppend(StartCalls(children, n - 1), StartsAt(children[n - 1], n - 1), i);
      OneCall(StartCall(n - 1), i);
      assert Calls(StartsAt(children[n - 1], n - 1), i) == if i == n - 1 then StartsAt(children[i], i) else [];
      hide StartsAt;
    }
  }

  /** What one child sees of StopDown, RestartAll and StartUpTo. */
  lemma StopDownCalls(k: Kids, low: nat, i: nat)
    requires i < |k.children|
    ensures Calls(StopDown(k, |k.children|, low).log, i) == Calls(k.log, i) +
            if low <= i && k.children[i].state != Stopped && k.children[i].hasStop then [StopCall(i)] else []
  {
    StopDownLog(k, |k.children|, low);
    CallsAppend(k.log, StopCalls(k.children, |k.children|, low), i);
    CallsOfStops(k.children, |k.children|, low, i);
  }

  lemma RestartAllCalls(k: Kids, low: nat, i: nat)
    requires low <= i < |k.children| && Restartable(k.children[i])
    ensures Calls(RestartAll(k, low).log, i) ==
            Calls(k.log, i) + (if k.children[i].state != Stopped then [StopCall(i)] else []) + [StartCall(i)]
    ensures RestartAll(k, low).children[i].state == Running
    ensures RestartAll(k, low).children[i].restarts == k.children[i].restarts + 1
  {
    var n := |k.children|;
    var stopped := StopDown(k, n, low);
    StopDownCalls(k, low, i);
    StopDownEach(k, n, low, i);
    RestartUpToLog(stopped, low, n);
    RestartUpToEach(stopped, low, n, i);
    CallsAppend(stopped.log, RestartCalls(stopped.children, low, n), i);
    CallsOfRestarts(stopped.children, low, n, i);
  }

  /** The log speaks of existing children only. */
  predicate LogWithin(log: seq<Call>, n: nat) {
    forall a {:trigger log[a]} :: 0 <= a < |log| ==> log[a].i < n
  }

  lemma {:induction false} CallsBeyond(log: seq<Call>, n: nat, i: nat)
    requires LogWithin(log, n) && i >= n
    ensures Calls(log, i) == []
  {
    if log != [] {
      CallsBeyond(log[..|log| - 1], n, i);
    }
  }

  ghost predicate AllBalanced(k: Kids) {
    && LogWithin(k.log, |k.children|)
    && forall i {:trigger ChildBalanced(k, i)} :: 0 <= i < |k.children| ==> ChildBalanced(k, i)
  }

  predicate ChildBalanced(k: Kids, i: nat)
    requires i < |k.children|
  {
    Restartable(k.children[i]) ==> Balanced(Calls(k.log, i), k.children[i].state == Running)
  }

  /** A report is about a child that runs. */
  predicate ReportsRunning(s: Sup, e: Event) {
    e.Fail? && 0 <= e.i < |s.kids.children| && s.state == SupRunning ==> s.kids.children[e.i].state == Running
  }

  lemma BalancedStop(calls: seq<Call>, i: nat)
    requires Balanced(calls, true)
    ensures Balanced(calls + [StopCall(i)], false)
  {
  }

  lemma BalancedStart(calls: seq<Call>, i: nat)
    requires Balanced(calls, false)
    ensures Balanced(calls + [StartCall(i)], true)
  {
  }

  lemma BalancedRestart(calls: seq<Call>, i: nat)
    requires Balanced(calls, true)
    ensures Balanced(calls + [StopCall(i)] + [StartCall(i)], true)
  {
    BalancedStop(calls, i);
    BalancedStart(calls + [StopCall(i)], i);
  }

  /** Child x has just been marked as failed; before, it ran. */
  predicate AlmostBalanced(k: Kids, x: nat, i: nat)
    requires i < |k.children|
  {
    Restartable(k.children[i]) ==>
      && Balanced(Calls(k.log, i), k.children[i].state == Running || i == x)
      && (i == x ==> k.children[i].state == Failed)
      && (i != x ==> k.children[i].state == Stopped || k.children[i].state == Running)
  }

  lemma StopBalanced(k: Kids, x: nat, i: nat)
    requires i < |k.children| && AlmostBalanced(k, x, i)
    ensures ChildBalanced(StopDown(k, |k.children|, 0), i)
  {
    StopDownCalls(k, 0, i);
    StopDownEach(k, |k.children|, 0, i);
    hide StopDown;
    hide Calls;
    if Restartable(k.children[i]) && k.children[i].state != Stopped {
      BalancedStop(Calls(k.log, i), i);
    } else {
      assert Calls(k.log, i) + [] == Calls(k.log, i);
    }
  }

  lemma RestartBalanced(k: Kids, low: nat, x: nat, i: nat)
    requires i < |k.children| && AlmostBalanced(k, x, i) && low <= x
    ensures ChildBalanced(RestartAll(k, low), i)
  {
    var n := |k.children|;
    if i < low {
      RestartBelow(k, low, i);
    } else if Restartable(k.children[i]) {
      RestartAllCalls(k, low, i);
      hide Balanced;
      if k.children[i].state != Stopped {
        BalancedRestart(Calls(k.log, i), i);
      } else {
        BalancedStart(Calls(k.log, i), i);
        assert Calls(k.log, i) + [] == Calls(k.log, i);
      }
      RestartKeepsKind(k, low, i);
    } else {
      RestartKeepsKind(k, low, i);
    }
  }

  lemma RestartKeepsKind(k: Kids, low: nat, i: nat)
    requires i < |k.children|
    ensures Restartable(RestartAll(k, low).children[i]) == Restartable(k.children[i])
  {
    StopDownEach(k, |k.children|, low, i);
    RestartUpToEach(StopDown(k, |k.children|, low), low, |k.children|, i);
  }

  lemma RestartBelow(k: Kids, low: nat, i: nat)
    requires i < low && i < |k.children|
    ensures Calls(RestartAll(k, low).log, i) == Calls(k.log, i) && RestartAll(k, low).children[i] == k.children[i]
  {
    var n := |k.children|;
    var stopped := StopDown(k, n, low);
    StopDownCalls(k, low, i);
    RestartUpToLog(stopped, low, n);
    CallsAppend(stopped.log, RestartCalls(stopped.children, low, n), i);
    CallsOfRestarts(stopped.children, low, n, i);
    RestartAllOrder(k, low);
    hide Calls;
    hide RestartAll;
    hide StopDown;
  }

  lemma LogsGrow(k: Kids, low: nat)
    requires LogWithin(k.log, |k.children|)
    ensures LogWithin(StopDown(k, |k.children|, low).log, |k.children|)
    ensures LogWithin(RestartAll(k, low).log, |k.children|)
  {
    var n := |k.children|;
    StopDownLog(k, n, low);
    StopsDescend(k.children, n, low);
    RestartUpToLog(StopDown(k, n, low), low, n);
    RestartsAscend(StopDown(k, n, low).children, low, n);
    hide StopDown;
    hide RestartUpTo;
    hide StopCalls;
    hide RestartCalls;
  }

  lemma OneForOneLog(k: Kids, x: nat)
    requires x < |k.children| && k.children[x].mode != Never
    ensures RestartStopped(StopChild(k, x), x).log ==
            k.log + StopsAt(k.children[x], x) + RestartsAt(k.children[x].(state := Stopped), x)
    ensures RestartStopped(StopChild(k, x), x).children ==
            k.children[x := Restarted(k.children[x].(state := Stopped))]
  {
    assert StopChild(k, x).log == k.log + StopsAt(k.children[x], x);
    assert StopChild(k, x).children == k.children[x := k.children[x].(state := Stopped)];
  }

  /** One stop and one start, each only when due. */
  lemma OneForOneCalls(k: Kids, x: nat, i: nat)
    requires i < |k.children| && x < |k.children| && k.children[x].mode != Never
    ensures Calls(RestartStopped(StopChild(k, x), x).log, i) ==
            Calls(k.log, i) +
            (if i == x then StopsAt(k.children[x], x) + RestartsAt(k.children[x].(state := Stopped), x) else [])
    ensures RestartStopped(StopChild(k, x), x).children[i] ==
            if i == x then Restarted(k.children[x].(state := Stopped)) else k.children[i]
  {
    hide Calls;
    hide RestartStopped;
    hide StopChild;
    hide Restarted;
    OneForOneLog(k, x);
    var stops, starts := StopsAt(k.children[x], x), RestartsAt(k.children[x].(state := Stopped), x);
    OneCall(StopCall(x), i);
    OneCall(StartCall(x), i);
    NoCalls(i);
    assert Calls(stops, i) == if i == x then stops else [];
    assert Calls(starts, i) == if i == x then starts else [];
    hide StopsAt;
    hide RestartsAt;
    CallsAppend(k.log, stops, i);
    CallsAppend(k.log + stops, starts, i);
  }

  lemma OneForOneBalanced(k: Kids, x: nat, i: nat)
    requires i < |k.children| && x < |k.children| && AlmostBalanced(k, x, i) && k.children[x].mode != Never
    ensures ChildBalanced(RestartStopped(StopChild(k, x), x), i)
  {
    OneForOneCalls(k, x, i);
    hide Calls;
    hide RestartStopped;
    hide StopChild;
    if i == x && Restartable(k.children[i]) {
      BalancedRestart(Calls(k.log, i), i);
      assert Calls(k.log, i) + ([StopCall(i)] + [StartCall(i)]) == Calls(k.log, i) + [StopCall(i)] + [StartCall(i)];
    } else {
      assert Calls(k.log, i) + [] == Calls(k.log, i);
    }
  }
}
