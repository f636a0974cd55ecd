/** The supervisor object: an array of children changed in place, and a ring of
    256 failure times. */
module SupervisorObject {
  import opened Rings
  import opened Supervisor
  import opened SupervisorRuns

  lemma {:induction false} InWindowStep(times: seq<int>, cutoff: int, i: nat)
    requires i < |times|
    ensures InWindow(times[..i + 1], cutoff) == InWindow(times[..i], cutoff) + (if times[i] >= cutoff then 1 else 0)
  {
    assert times[..i + 1][..i] == times[..i];
  }

  class RestartHistory {
    const timestamps: array<int>
    var head: nat
    var count: nat
    ghost var all: seq<int>   // every time ever recorded

    constructor ()
      ensures Valid() && all == [] && fresh(timestamps)
    {
      timestamps := new int[MAX_HISTORY](_ => 0);
      head, count, all := 0, 0, [];
    }

    ghost predicate Valid()
      reads this, timestamps
    {
      timestamps.Length == MAX_HISTORY && count == |Kept(all)| && Stores(timestamps[..], head, Kept(all))
    }

    /** The newest time takes the place of the oldest when the ring is full. */
    method Record(now: int)
      requires Valid()
      modifies this, timestamps
      ensures Valid() && all == old(all) + [now]
    {
      hide Last;
      ghost var slots := timestamps[..];
      PlaceIsModulo(head, count, MAX_HISTORY);
      PlaceIsModulo(head, 1, MAX_HISTORY);
      LastRecord(all, now, MAX_HISTORY);
      StoresNext(slots, head, Kept(all), now);
      hide Stores;
      var idx := (head + count) % MAX_HISTORY;
      timestamps[idx] := now;
      assert timestamps[..] == slots[idx := now];
      if count < MAX_HISTORY {
        count := count + 1;
      } else {
        head := (head + 1) % MAX_HISTORY;
      }
      all := all + [now];
    }

    method CountInWindow(window: int, now: int) returns (n: nat)
      requires Valid()
      ensures n == if window <= 0 then 0 else InWindow(Kept(all), now - window)
    {
      hide Last;
      if count == 0 || window <= 0 {
        return 0;
      }
      var cutoff := now - window;
      n := 0;
      var i := 0;
      while i < count
        invariant 0 <= i <= count
        invariant n == InWindow(Kept(all)[..i], cutoff)
      {
        InWindowStep(Kept(all), cutoff, i);
        PlaceIsModulo(head, i, MAX_HISTORY);
        var idx := (head + i) % MAX_HISTORY;
        assert Kept(all)[i] == timestamps[idx];
        if timestamps[idx] >= cutoff {
          n := n + 1;
        }
        i := i + 1;
      }
      assert Kept(all)[..i] == Kept(all);
    }
  }

  class LcnSupervisor {
    const strategy: Strategy
    const maxRestarts: int
    const window: int
    const children: array<Child>
    const history: RestartHistory
    var childCount: nat
    var state: State
    ghost var log: seq<Call>   // the callbacks called so far

    constructor (strategy: Strategy, maxRestarts: int, window: int)
      ensures Valid() && Model() == New(strategy, maxRestarts, window)
      ensures fresh(children) && fresh(history) && fresh(history.timestamps)
    {
      this.strategy, this.maxRestarts := strategy, maxRestarts;
      this.window := if window > 0 then window else DEFAULT_WINDOW;
      children := new Child[MAX_CHILDREN](_ => Child(false, false, Stopped, Always, 0, 0));
      history := new RestartHistory();
      childCount, state, log := 0, SupStopped, [];
    }

    ghost predicate Valid()
      reads this, children, history, history.timestamps
    {
      children.Length == MAX_CHILDREN && childCount <= MAX_CHILDREN && history.Valid()
    }

    ghost function Kids(): Supervisor.Kids
      requires childCount <= children.Length
      reads this, children
    {
      Supervisor.Kids(children[..childCount], log)
    }

    ghost function Model(): Sup
      requires Valid()
      reads this, children, history, history.timestamps
    {
      Sup(Kids(), strategy, maxRestarts, window, state, history.all)
    }

    method AddChild(hasStart: bool, hasStop: bool, mode: Mode)
      requires Valid()
      modifies this`childCount, children
      ensures Valid() && Model() == Supervisor.AddChild(old(Model()), hasStart, hasStop, mode)
    {
      if childCount >= MAX_CHILDREN {
        return;
      }
      children[childCount] := Child(hasStart, hasStop, Stopped, mode, 0, 0);
      childCount := childCount + 1;
      assert children[..childCount] == old(children[..childCount]) + [Child(hasStart, hasStop, Stopped, mode, 0, 0)];
    }

    // ---- one child ----

    method ChildStart(i: nat)
      requires Valid() && i < childCount
      modifies this`log, children
      ensures Valid() && Kids() == StartChild(old(Kids()), i)
    {
      var c := children[i];
      if c.state == Running {
        return;
      }
      if c.hasStart {
        children[i] := c.(state := Restarting);
        log := log + [StartCall(i)];
        children[i] := c.(state := Running);
        assert children[..childCount] == old(children[..childCount])[i := c.(state := Running)];
      }
    }

    method ChildStop(i: nat)
      requires Valid() && i < childCount
      modifies this`log, children
      ensures Valid() && Kids() == StopChild(old(Kids()), i)
    {
      var c := children[i];
      if c.state == Stopped {
        return;
      }
      if c.hasStop {
        log := log + [StopCall(i)];
      }
      children[i] := c.(state := Stopped);
      assert children[..childCount] == old(children[..childCount])[i := c.(state := Stopped)];
    }

    /** Count, start, forget the failures. */
    method RestartChild(i: nat)
      requires Valid() && i < childCount
      modifies this`log, children
      ensures Valid() && Kids() == RestartStopped(old(Kids()), i)
    {
      children[i] := children[i].(restarts := children[i].restarts + 1);
      assert children[..childCount] ==
             old(children[..childCount])[i := old(children[i]).(restarts := old(children[i]).restarts + 1)];
      ChildStart(i);
      ghost var started := children[..childCount];
      children[i] := children[i].(failures := 0);
      assert children[..childCount] == started[i := started[i].(failures := 0)];
    }

    // ---- several children ----

    /** From the last child down to `low`. */
    method StopChildren(low: nat)
      requires Valid() && low <= childCount
      modifies this`log, children
      ensures Valid() && Kids() == StopDown(old(Kids()), childCount, low)
    {
      hide StopChild;
      var i := childCount;
      while i > low
        invariant Valid() && low <= i <= childCount
        invariant StopDown(Kids(), i, low) == StopDown(old(Kids()), childCount, low)
      {
        i := i - 1;
        ChildStop(i);
      }
    }

    method RestartChildren(low: nat)
      requires Valid() && low <= childCount
      modifies this`log, children
      ensures Valid() && Kids() == RestartUpTo(old(Kids()), low, childCount)
    {
      hide RestartStopped;
      var i := low;
      while i < childCount
        invariant Valid() && low <= i <= childCount
        invariant Kids() == RestartUpTo(old(Kids()), low, i)
      {
        if children[i].mode != Never {
          RestartChild(i);
        }
        i := i + 1;
      }
    }

    method StrategyOneForOne(i: nat)
      requires Valid() && i < childCount
      modifies this`log, children
      ensures Valid() && Kids() == Apply(OneForOne, old(Kids()), i)
    {
      if children[i].mode == Never {
        children[i] := children[i].(state := Stopped);
        assert children[..childCount] == old(children[..childCount])[i := old(children[i]).(state := Stopped)];
        return;
      }
      hide RestartStopped;
      ChildStop(i);
      RestartChild(i);
    }

    /** Stop and restart the children from `low` on. */
    method StrategyRestartFrom(low: nat)
      requires Valid() && low <= childCount
      modifies this`log, children
      ensures Valid() && Kids() == RestartAll(old(Kids()), low)
    {
      hide StopDown;
      hide RestartUpTo;
      StopChildren(low);
      RestartChildren(low);
    }

    // ---- calls from outside ----

    method Start()
      requires Valid()
      modifies this`log, this`state, children
      ensures Valid() && Model() == StartSup(old(Model()))
    {
      if state == SupRunning {
        return;
      }
      hide StartChild;
      state := SupRunning;
      var i := 0;
      while i < childCount
        invariant Valid() && 0 <= i <= childCount && state == SupRunning
        invariant Kids() == StartUpTo(old(Kids()), i)
      {
        ChildStart(i);
        i := i + 1;
      }
    }

    method Stop()
      requires Valid()
      modifies this`log, this`state, children
      ensures Valid() && Model() == StopSup(old(Model()))
    {
      if state == SupStopped {
        return;
      }
      hide StopDown;
      state := ShuttingDown;
      StopChildren(0);
      state := SupStopped;
    }

    method CheckEscalation(now: int) returns (escalated: bool)
      requires Valid()
      modifies this`log, this`state, children
      ensures Valid() && escalated == (maxRestarts > 0 && Recent(old(Model()), now) > maxRestarts)
      ensures escalated ==> state == Escalated && Kids() == StopDown(old(Kids()), childCount, 0)
      ensures !escalated ==> state == old(state) && Kids() == old(Kids())
    {
      hide StopDown;
      hide InWindow;
      if maxRestarts <= 0 {
        return false;
      }
      var recent := history.CountInWindow(window, now);
      if recent > maxRestarts {
        state := Escalated;
        StopChildren(0);
        return true;
      }
      return false;
    }

    /** `at` is the clock when the failure is recorded, `now` when the window
        is examined. */
    method ReportFailure(i: int, at: int, now: int) returns (code: int)
      requires Valid()
      modifies this, children, history, history.timestamps
      ensures Valid() && Report(Model(), code) == ChildFailed(old(Model()), i, at, now)
    {
      hide StopDown;
      hide RestartAll;
      hide InWindow;
      hide Last;
      if i < 0 || i >= childCount {
        return -1;
      }
      if state != SupRunning {
        return -1;
      }
      ghost var before := children[..childCount];
      children[i] := children[i].(state := Failed, failures := children[i].failures + 1);
      assert children[..childCount] == before[i := before[i].(state := Failed, failures := before[i].failures + 1)];
      history.Record(at);
      var escalated := CheckEscalation(now);
      if escalated {
        return -2;
      }
      match strategy {
        case OneForOne => StrategyOneForOne(i);
        case OneForAll => StrategyRestartFrom(0);
        case RestForAll => StrategyRestartFrom(i);
      }
      return 0;
    }
  }
}
