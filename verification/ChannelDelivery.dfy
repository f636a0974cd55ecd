/** Who gets what: the items receives hand to their callers, and the items sends
    were called with, over every run of a channel. */
module ChannelDelivery {
  import opened Channel
  import opened Wrappers

  // ---- what a receive hands out ----

  /** The calls that look for an item. */
  predicate Receives<T>(s: Chan<T>, e: Event<T>)
    requires Enabled(s, e)
  {
    e.Recv? || e.TryRecv? || (e.Resume? && s.waits[e.t].reason.ForItem?)
  }

  /** An item is recorded as received exactly when it is handed to the caller. */
  lemma GotIff<T(!new)>(s: Chan<T>, e: Event<T>, x: T)
    requires Inv(s) && Enabled(s, e)
    ensures Apply(s, e).out == Got(x) <==> Apply(s, e).s.received == s.received + [x]
    ensures !Apply(s, e).out.Got? ==> Apply(s, e).s.received == s.received
  {
    OneMore(s.received, Apply(s, e).s.received, x);
  }

  lemma OneMore<T>(before: seq<T>, after: seq<T>, x: T)
    ensures after == before + [x] <==> |after| == |before| + 1 && after[..|before|] == before && after[|before|] == x
  {
  }

  /** A receive gets an item exactly when one is stored, and it is the oldest
      accepted item that nobody has received. */
  lemma OldestGiven<T(!new)>(s: Chan<T>, e: Event<T>)
    requires Inv(s) && Enabled(s, e)
    ensures Apply(s, e).out.Got? <==> Receives(s, e) && |s.received| < |s.accepted|
    ensures Apply(s, e).out.Got? ==> Apply(s, e).out.item == s.accepted[|s.received|]
  {
    assert s.accepted == s.received + s.items;
  }

  /** The non-blocking receive never sleeps, and fails exactly when nothing is
      stored, closed or not. */
  lemma TryRecvFailsIff<T(!new)>(s: Chan<T>, t: Tid, pick: Tid)
    requires Inv(s) && Enabled(s, TryRecv(t, pick))
    ensures Apply(s, TryRecv(t, pick)).out == Failed <==> s.received == s.accepted
    ensures Apply(s, TryRecv(t, pick)).out == Failed ==> Apply(s, TryRecv(t, pick)).s == s
    ensures Apply(s, TryRecv(t, pick)).out != Sleeps
  {
    assert s.received == s.accepted <==> s.items == [];
  }

  /** Closing is always possible, is the only way to be closed, and wakes every
      sleeper; the items stay for those who still receive. */
  lemma ClosedIff<T(!new)>(s: Chan<T>, e: Event<T>)
    requires Inv(s) && Enabled(s, e)
    ensures Apply(s, e).s.closed <==> s.closed || e == Close
    ensures Enabled(s, Close) && Apply(s, Close).s.items == s.items
    ensures Asleep(Apply(s, Close).s.waits, NotFull) == {} && Asleep(Apply(s, Close).s.waits, NotEmpty) == {}
    ensures Apply(s, Close).s.waits.Keys == s.waits.Keys
  {
  }

  // ---- what a send stores ----

  /** The item the running thread wants to store. */
  function InHand<T>(s: Chan<T>, e: Event<T>): Option<T>
    requires Enabled(s, e)
  {
    match e
    case Send(_, item, _) => Some(item)
    case Resume(t, _) => if s.waits[t].reason.ForSlot? then Some(s.waits[t].reason.item) else None
    case _ => None
  }

  /** The item accepted is the one the caller passed, when there is room on an
      open channel; nothing else is ever accepted. */
  lemma AcceptedIff<T(!new)>(s: Chan<T>, e: Event<T>, x: T)
    requires Inv(s) && Enabled(s, e)
    ensures Apply(s, e).s.accepted == s.accepted + [x] <==>
            InHand(s, e) == Some(x) && !s.closed && |s.items| < s.capacity
    ensures |Apply(s, e).s.accepted| <= |s.accepted| ==> Apply(s, e).s.accepted == s.accepted
  {
    OneMore(s.accepted, Apply(s, e).s.accepted, x);
    hide Signal;
    hide Block;
  }

  // ---- over whole runs ----

  predicate Possible<T>(s: Chan<T>, events: seq<Event<T>>)
    decreases |events|
  {
    events == [] || (Enabled(s, events[0]) && Possible(Apply(s, events[0]).s, events[1..]))
  }

  /** What one event hands to its caller. */
  function Given<T>(s: Chan<T>, e: Event<T>): seq<T>
    requires Enabled(s, e)
  {
    if Apply(s, e).out.Got? then [Apply(s, e).out.item] else []
  }

  /** The item in hand, if the event makes the channel accept one. */
  function Put<T>(s: Chan<T>, e: Event<T>): seq<T>
    requires Enabled(s, e)
  {
    if InHand(s, e).Some? && |Apply(s, e).s.accepted| > |s.accepted| then [InHand(s, e).value] else []
  }

  /** The items handed to callers, in the order of the events. */
  function Handed<T>(s: Chan<T>, events: seq<Event<T>>): seq<T>
    requires Possible(s, events)
    decreases |events|
  {
    if events == [] then [] else Given(s, events[0]) + Handed(Apply(s, events[0]).s, events[1..])
  }

  /** The items in hand that were accepted, in the order of the events. */
  function Stored<T>(s: Chan<T>, events: seq<Event<T>>): seq<T>
    requires Possible(s, events)
    decreases |events|
  {
    if events == [] then [] else Put(s, events[0]) + Stored(Apply(s, events[0]).s, events[1..])
  }

  lemma RunHead<T(!new)>(s: Chan<T>, events: seq<Event<T>>, s': Chan<T>)
    requires Run(s, events, s')
    ensures events == [] ==> s' == s
    ensures events != [] && (events[0].Resume? || events[0].Spurious?) ==> events[0].t in s.waits
    ensures events != [] ==> Enabled(s, events[0]) && Run(Apply(s, events[0]).s, events[1..], s')
  {
    hide Apply;
  }

  lemma {:induction false} RunPossible<T(!new)>(s: Chan<T>, events: seq<Event<T>>, s': Chan<T>)
    requires Run(s, events, s')
    ensures Possible(s, events)
    decreases |events|
  {
    hide Apply;
    if events != [] {
      RunHead(s, events, s');
      RunPossible(Apply(s, events[0]).s, events[1..], s');
    }
  }

  lemma {:induction false} RunHands<T(!new)>(s: Chan<T>, events: seq<Event<T>>, s': Chan<T>)
    requires Inv(s) && Run(s, events, s') && Possible(s, events)
    ensures s'.received == s.received + Handed(s, events) && s'.accepted == s.accepted + Stored(s, events)
    decreases |events|
  {
    hide *;
    RunHead(s, events, s');
    if events != [] {
      var e, s1 := events[0], Apply(s, events[0]).s;
      StepKeeps(s, e);
      StepHands(s, e);
      Unfolds(s, events);
      RunHands(s1, events[1..], s');
    } else {
      NoneHanded(s);
    }
  }

  lemma Unfolds<T(!new)>(s: Chan<T>, events: seq<Event<T>>)
    requires events != [] && Possible(s, events)
    ensures var s1 := Apply(s, events[0]).s;
            && Possible(s1, events[1..])
            && Handed(s, events) == Given(s, events[0]) + Handed(s1, events[1..])
            && Stored(s, events) == Put(s, events[0]) + Stored(s1, events[1..])
  {
    hide Apply;
    hide Given;
    hide Put;
    hide Enabled;
  }

  lemma NoneHanded<T>(s: Chan<T>)
    ensures Possible(s, []) && Handed(s, []) == [] && Stored(s, []) == []
  {
  }

  lemma StepHands<T(!new)>(s: Chan<T>, e: Event<T>)
    requires Inv(s) && Enabled(s, e)
    ensures Apply(s, e).s.received == s.received + Given(s, e)
    ensures Apply(s, e).s.accepted == s.accepted + Put(s, e)
  {
    var after := Apply(s, e);
    if after.out.Got? {
      GotIff(s, e, after.out.item);
    } else {
      assert Inv(s) ==> after.s.received == s.received;
    }
    if InHand(s, e).Some? {
      AcceptedIff(s, e, InHand(s, e).value);
    }
  }

  /** MAIN RESULT. Over every run of a new channel the items handed to receivers,
      in order, are the first of the items senders passed in, in the order they
      were accepted; what is left over is stored. */
  lemma FirstInFirstOut<T(!new)>(capacity: int, events: seq<Event<T>>, s: Chan<T>)
    requires Run(New(capacity), events, s)
    ensures Possible(New(capacity), events)
    ensures Handed(New(capacity), events) == s.received && Stored(New(capacity), events) == s.accepted
    ensures Handed(New(capacity), events) + s.items == Stored(New(capacity), events)
  {
    NewInv<T>(capacity);
    RunPossible(New(capacity), events, s);
    RunHands(New(capacity), events, s);
    ChannelSafe(capacity, events, s);
  }

  // ---- every item sent is decided once ----

  function Pending<T>(s: Chan<T>, t: Tid): seq<T> {
    if t in s.waits && s.waits[t].reason.ForSlot? then [s.waits[t].reason.item] else []
  }

  function Offered<T>(e: Event<T>, t: Tid): seq<T> {
    if e.Send? && e.t == t then [e.item] else []
  }

  predicate By<T>(e: Event<T>, t: Tid) {
    (e.Send? || e.Resume?) && e.t == t
  }

  /** What a send by t decides: its item is accepted or refused. */
  function Decided<T>(s: Chan<T>, e: Event<T>, t: Tid): seq<T>
    requires Enabled(s, e)
  {
    var x, after := InHand(s, e), Apply(s, e);
    if By(e, t) && x.Some? && (after.out == Refused || |after.s.accepted| > |s.accepted|) then [x.value] else []
  }

  function AllOffered<T>(events: seq<Event<T>>, t: Tid): seq<T> {
    if events == [] then [] else Offered(events[0], t) + AllOffered(events[1..], t)
  }

  function AllDecided<T>(s: Chan<T>, events: seq<Event<T>>, t: Tid): seq<T>
    requires Possible(s, events)
    decreases |events|
  {
    if events == [] then []
    else Decided(s, events[0], t) + AllDecided(Apply(s, events[0]).s, events[1..], t)
  }

  lemma PendingSignalled<T>(waits: Waits<T>, c: CondVar, pick: Tid, t: Tid)
    ensures t in Signal(waits, c, pick) <==> t in waits
    ensures t in waits ==> Signal(waits, c, pick)[t].reason == waits[t].reason
  {
  }

  lemma StepDecides<T(!new)>(s: Chan<T>, e: Event<T>, t: Tid)
    requires Inv(s) && Enabled(s, e)
    ensures Pending(s, t) + Offered(e, t) == Decided(s, e, t) + Pending(Apply(s, e).s, t)
  {
    hide Inv;
    hide Signal;
    match e
    case Send(u, item, pick) =>
      PendingSignalled(s.waits, NotEmpty, pick, t);
    case Recv(u, pick) =>
      PendingSignalled(s.waits, NotFull, pick, t);
    case TryRecv(u, pick) =>
      PendingSignalled(s.waits, NotFull, pick, t);
    case Close =>
    case Resume(u, pick) =>
      PendingSignalled(s.waits - {u}, NotFull, pick, t);
      PendingSignalled(s.waits - {u}, NotEmpty, pick, t);
    case Spurious(u) =>
  }

  lemma Regroup<T>(p: seq<T>, o: seq<T>, os: seq<T>, d: seq<T>, ds: seq<T>, mid: seq<T>, last: seq<T>)
    requires p + o == d + mid && mid + os == ds + last
    ensures p + (o + os) == d + ds + last
  {
    assert p + (o + os) == (p + o) + os == d + (mid + os) == d + ds + last;
  }

  /** MAIN RESULT. Over every run and for every thread: the items it was told to
      send are, in order, those accepted or refused, once each, and the one it is
      still waiting with, if any. */
  lemma {:induction false} SentOnce<T(!new)>(s: Chan<T>, events: seq<Event<T>>, s': Chan<T>, t: Tid)
    requires Inv(s) && Run(s, events, s') && Possible(s, events)
    ensures Pending(s, t) + AllOffered(events, t) == AllDecided(s, events, t) + Pending(s', t)
    decreases |events|
  {
    hide *;
    RunHead(s, events, s');
    if events != [] {
      var e, s1 := events[0], Apply(s, events[0]).s;
      StepKeeps(s, e);
      StepDecides(s, e, t);
      DecidedUnfolds(s, events, t);
      SentOnce(s1, events[1..], s', t);
      Regroup(Pending(s, t), Offered(e, t), AllOffered(events[1..], t), Decided(s, e, t),
              AllDecided(s1, events[1..], t), Pending(s1, t), Pending(s', t));
    } else {
      NoneDecided(s, t);
    }
  }

  lemma DecidedUnfolds<T(!new)>(s: Chan<T>, events: seq<Event<T>>, t: Tid)
    requires events != [] && Possible(s, events)
    ensures var s1 := Apply(s, events[0]).s;
            && Possible(s1, events[1..]) && AllOffered(events, t) == Offered(events[0], t) + AllOffered(events[1..], t)
            && AllDecided(s, events, t) == Decided(s, events[0], t) + AllDecided(s1, events[1..], t)
  {
    hide Apply;
    hide Decided;
    hide Enabled;
  }

  lemma NoneDecided<T>(s: Chan<T>, t: Tid)
    ensures AllOffered<T>([], t) == [] && Possible(s, []) && AllDecided(s, [], t) == []
    ensures Pending(s, t) + [] == [] + Pending(s, t)
  {
  }
}
