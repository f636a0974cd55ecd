/** The event store: a ring of 8192 events that agrees with the plain history
    of everything emitted. */
module EventStore {
  import opened Rings
  import opened Wrappers

  const CAPACITY := 8192
  const NAME_MAX := 64
  const DETAIL_MAX := 512

  datatype Event = Event(kind: int, time: int, number: nat, agent: string, session: string, detail: string)

  /** What fits a buffer with room for the terminator. */
  function Fit(text: string, cap: nat): (r: string)
    requires cap > 0
    ensures r <= text && |r| == if |text| < cap then |text| else cap - 1
  {
    if |text| < cap then text else text[..cap - 1]
  }

  // ---- queries on a plain list of events ----

  datatype Filter = Filter(since: nat, kind: int, agent: Option<string>)

  predicate Matches(e: Event, f: Filter) {
    && e.number >= f.since
    && (f.kind < 0 || e.kind == f.kind)
    && (f.agent.None? || f.agent.value == "" || e.agent == f.agent.value)
  }

  /** All matching events, in order. */
  function Select(events: seq<Event>, f: Filter): (r: seq<Event>)
    ensures |r| <= |events|
  {
    if events == [] then []
    else
      var n := |events| - 1;
      if Matches(events[n], f) then Select(events[..n], f) + [events[n]] else Select(events[..n], f)
  }

  function Take(events: seq<Event>, max: nat): (r: seq<Event>)
    ensures |r| <= max && r <= events
  {
    if |events| <= max then events else events[..max]
  }

  lemma {:induction false} SelectAppend(a: seq<Event>, b: seq<Event>, f: Filter)
    ensures Select(a + b, f) == Select(a, f) + Select(b, f)
  {
    if b == [] {
      assert a + b == a;
    } else {
      assert (a + b)[..|a + b| - 1] == a + b[..|b| - 1];
      SelectAppend(a, b[..|b| - 1], f);
    }
  }

  lemma {:induction false} SelectNone(events: seq<Event>, f: Filter)
    requires forall i :: 0 <= i < |events| ==> !Matches(events[i], f)
    ensures Select(events, f) == []
  {
    if events != [] {
      SelectNone(events[..|events| - 1], f);
    }
  }

  lemma {:induction false} SelectAll(events: seq<Event>, f: Filter)
    requires forall i :: 0 <= i < |events| ==> Matches(events[i], f)
    ensures Select(events, f) == events
  {
    if events != [] {
      SelectAll(events[..|events| - 1], f);
    }
  }

  // ---- what the filters mean ----

  /** Each filter narrows on its own: by number, by kind, by agent. A negative
      kind, no agent and an empty agent name let every event through. */
  lemma FiltersIndependent(e: Event, f: Filter, kind: nat, agent: string)
    ensures Matches(e, Filter(0, -1, None))
    ensures Matches(e, f) <==> e.number >= f.since && Matches(e, f.(since := 0))
    ensures Matches(e, f.(kind := kind)) <==> e.kind == kind && Matches(e, f.(kind := -1))
    ensures Matches(e, f.(kind := -1 - kind)) <==> Matches(e, f.(kind := -1))
    ensures agent != "" ==> (Matches(e, f.(agent := Some(agent))) <==> e.agent == agent && Matches(e, f.(agent := None)))
    ensures Matches(e, f.(agent := Some(""))) <==> Matches(e, f.(agent := None))
  {
  }

  /** The result is the subsequence at all matching places, in order. */
  lemma {:induction false} SelectExact(events: seq<Event>, f: Filter) returns (at: seq<nat>)
    ensures |Select(events, f)| == |at| && forall i, j :: 0 <= i < j < |at| ==> at[i] < at[j]
    ensures forall i :: 0 <= i < |at| ==> at[i] < |events| && Select(events, f)[i] == events[at[i]]
    ensures forall p: nat :: p in at <==> p < |events| && Matches(events[p], f)
  {
    if events == [] {
      at := [];
    } else {
      hide Matches;
      var n := |events| - 1;
      at := SelectExact(events[..n], f);
      if Matches(events[n], f) {
        at := at + [n];
      }
    }
  }

  /** Events are numbered by their place in the history. */
  predicate Numbered(history: seq<Event>) {
    forall i {:trigger history[i]} :: 0 <= i < |history| ==> history[i].number == i
  }

  function Max(a: int, b: int): int {
    if a > b then a else b
  }

  /** A reader that asks for everything from a number on gets exactly the events
      of the whole history from that number on, unless the ring has moved past
      it; then the oldest retained ones. */
  lemma PollSeesAll(history: seq<Event>, since: nat)
    requires Numbered(history) && since <= |history|
    ensures Select(Last(history, CAPACITY), Filter(since, -1, None)) ==
            history[Max(since, |history| - CAPACITY)..]
  {
    SuffixSelect(history, Max(|history| - CAPACITY, 0), since);
    hide Select;
    assert Last(history, CAPACITY) == history[Max(|history| - CAPACITY, 0)..];
  }

  lemma SuffixSelect(history: seq<Event>, first: nat, since: nat)
    requires Numbered(history) && first <= |history| && since <= |history|
    ensures Select(history[first..], Filter(since, -1, None)) == history[Max(since, first)..]
  {
    hide Select;
    var kept, skip := history[first..], Max(since - first, 0);
    forall i {:trigger kept[i]} | 0 <= i < |kept|
      ensures Matches(kept[i], Filter(since, -1, None)) <==> i >= skip
    {
      assert kept[i] == history[first + i];
    }
    SelectFrom(kept, Filter(since, -1, None), skip);
    assert kept[skip..] == history[first + skip..];
  }

  lemma SelectFrom(events: seq<Event>, f: Filter, skip: nat)
    requires skip <= |events|
    requires forall i {:trigger events[i]} :: 0 <= i < |events| ==> (Matches(events[i], f) <==> i >= skip)
    ensures Select(events, f) == events[skip..]
  {
    SelectAppend(events[..skip], events[skip..], f);
    SelectNone(events[..skip], f);
    SelectAll(events[skip..], f);
    assert events == events[..skip] + events[skip..];
  }

  /** So nothing is missed exactly when no more than 8192 events came since. */
  lemma PollMissesNothingIff(history: seq<Event>, since: nat)
    requires Numbered(history) && since <= |history|
    ensures Select(Last(history, CAPACITY), Filter(since, -1, None)) == history[since..] <==>
            |history| - since <= CAPACITY
  {
    PollSeesAll(history, since);
  }

  /** The same for a reader with a filter: within 8192 events it gets what the
      whole history has for it. */
  lemma FilteredPoll(history: seq<Event>, f: Filter)
    requires Numbered(history) && |history| - f.since <= CAPACITY
    ensures Select(Last(history, CAPACITY), f) == Select(history, f)
  {
    hide Select;
    var first := Max(|history| - CAPACITY, 0);
    SelectAppend(history[..first], history[first..], f);
    SelectNone(history[..first], f);
    assert history == history[..first] + history[first..];
  }

  lemma NumberedNext(history: seq<Event>, e: Event)
    requires Numbered(history) && e.number == |history|
    ensures Numbered(history + [e])
  {
  }

  lemma SelectStep(events: seq<Event>, i: nat, f: Filter)
    requires i < |events|
    ensures Select(events[..i + 1], f) ==
            Select(events[..i], f) + (if Matches(events[i], f) then [events[i]] else [])
  {
    assert events[..i + 1][..i] == events[..i];
  }

  /** A full result stays the beginning of the longer one. */
  lemma TakeFull(events: seq<Event>, i: nat, f: Filter, max: nat)
    requires i <= |events| && |Select(events[..i], f)| <= max
    requires i < |events| ==> |Select(events[..i], f)| == max
    ensures Take(Select(events, f), max) == Select(events[..i], f)
  {
    SelectAppend(events[..i], events[i..], f);
    assert events == events[..i] + events[i..];
    if i == |events| {
      assert events[..i] == events;
    }
  }

  // ---- the store ----

  class LcnEventStore {
    const events: array<Event>
    var head: nat
    var count: nat
    var nextSeq: nat
    ghost var history: seq<Event>   // everything ever emitted

    constructor ()
      ensures Valid() && history == [] && fresh(events)
    {
      events := new Event[CAPACITY](_ => Event(0, 0, 0, "", "", ""));
      head, count, nextSeq, history := 0, 0, 0, [];
    }

    /** The slots hold the last 8192 events of the history. */
    ghost predicate Valid()
      reads this, events
    {
      && events.Length == CAPACITY && nextSeq == |history| && Numbered(history)
      && count == |Last(history, CAPACITY)| && Stores(events[..], head, Last(history, CAPACITY))
    }

    method Emit(kind: int, time: int, agent: string, session: string, detail: string) returns (number: nat)
      requires Valid()
      modifies this, events
      ensures Valid() && number == |old(history)|
      ensures history == old(history) +
                [Event(kind, time, number, Fit(agent, NAME_MAX), Fit(session, NAME_MAX), Fit(detail, DETAIL_MAX))]
    {
      hide Last;
      hide Fit;
      hide Numbered;
      PlaceIsModulo(head, count, CAPACITY);
      PlaceIsModulo(head, 1, CAPACITY);
      ghost var slots, kept := events[..], Last(history, CAPACITY);
      var idx := (head + count) % CAPACITY;
      if count == CAPACITY {
        head := (head + 1) % CAPACITY;
      } else {
        count := count + 1;
      }
      number := nextSeq;
      nextSeq := nextSeq + 1;
      var e := Event(kind, time, number, Fit(agent, NAME_MAX), Fit(session, NAME_MAX), Fit(detail, DETAIL_MAX));
      LastRecord(history, e, CAPACITY);
      StoresNext(slots, old(head), kept, e);
      NumberedNext(history, e);
      hide Stores;
      events[idx] := e;
      assert events[..] == slots[idx := e];
      history := history + [e];
    }

    /** Matching events, oldest first, into `out`; at most `limit` if that is
        positive, and no more than there is room for. */
    method Query(f: Filter, limit: int, out: array<Event>, cap: int) returns (matched: nat)
      requires Valid() && cap <= out.Length && out != events
      modifies out
      ensures Valid() && matched <= out.Length
      ensures var max := if cap <= 0 then 0 else if 0 < limit < cap then limit else cap;
              out[..matched] == Take(Select(Last(history, CAPACITY), f), max)
      ensures forall j :: matched <= j < out.Length ==> out[j] == old(out[j])
    {
      hide Last;
      matched := 0;
      if cap <= 0 {
        return;
      }
      var max := if 0 < limit < cap then limit else cap;
      ghost var kept := Last(history, CAPACITY);
      hide Numbered;
      assert out[..matched] == Select(kept[..0], f);
      hide Select;
      hide Matches;
      var i := 0;
      while i < count && matched < max
        invariant 0 <= i <= count && matched <= max && Valid()
        invariant out[..matched] == Select(kept[..i], f)
        invariant forall j :: matched <= j < out.Length ==> out[j] == old(out[j])
      {
        PlaceIsModulo(head, i, CAPACITY);
        SelectStep(kept, i, f);
        var idx := (head + i) % CAPACITY;
        var e := events[idx];
        assert e == kept[i] by {
          assert events[..][idx] == e;
        }
        var admitted := Admits(e, f);
        if admitted {
          ghost var before := out[..matched];
          out[matched] := e;
          matched := matched + 1;
          assert out[..matched] == before + [e];
        }
        i := i + 1;
      }
      TakeFull(kept, i, f, max);
    }

    /** The three tests, each skipping the event. */
    method Admits(e: Event, f: Filter) returns (ok: bool)
      ensures ok == Matches(e, f)
    {
      if e.number < f.since {
        return false;
      }
      if f.kind >= 0 && e.kind != f.kind {
        return false;
      }
      if f.agent.Some? && f.agent.value != "" {
        if e.agent != f.agent.value {
          return false;
        }
      }
      return true;
    }

    method LatestSeq() returns (n: nat)
      requires Valid()
      ensures n == if history == [] then 0 else history[|history| - 1].number
    {
      if count == 0 {
        return 0;
      }
      return nextSeq - 1;
    }
  }
}
