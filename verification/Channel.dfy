/** Channels as a transition system: one step per critical section, each
    condition variable a set of sleeping and a set of woken threads. */
module Channel {
  type Tid = nat

  /** Why a thread is blocked: for a slot or for its item to be taken (both on
      `not_full`), or for an item (on `not_empty`). */
  datatype Reason<T> = ForSlot(item: T) | ForHandoff(ticket: nat, sent: T) | ForItem

  datatype CondVar = NotFull | NotEmpty

  /** A blocked thread: asleep, or woken but not yet running again. */
  datatype Wait<T> = Wait(reason: Reason<T>, awake: bool)
  {
    function On(): CondVar {
      if reason.ForItem? then NotEmpty else NotFull
    }
  }

  type Waits<T> = map<Tid, Wait<T>>

  function Asleep<T>(waits: Waits<T>, c: CondVar): set<Tid> {
    set t | t in waits && waits[t].On() == c && !waits[t].awake
  }

  function Woken<T>(waits: Waits<T>, c: CondVar): set<Tid> {
    set t | t in waits && waits[t].On() == c && waits[t].awake
  }

  /** `accepted` and `received` list all items in the order of the lock. */
  datatype Chan<T> = Chan(capacity: nat, unbuffered: bool, items: seq<T>, closed: bool, waits: Waits<T>,
                          accepted: seq<T>, received: seq<T>)

  /** `pick` is the sleeper a signal wakes, where there is one. */
  datatype Event<T> =
    | Send(t: Tid, item: T, pick: Tid)
    | Recv(t: Tid, pick: Tid)
    | TryRecv(t: Tid, pick: Tid)
    | Close
    | Resume(t: Tid, pick: Tid)
    | Spurious(t: Tid)

  datatype Outcome<T> = Sleeps | Sent | Refused | Got(item: T) | Failed | Quiet

  datatype After<T> = After(s: Chan<T>, out: Outcome<T>)

  /** No capacity means a capacity of one with hand-over. */
  function New<T>(capacity: int): Chan<T> {
    Chan(if capacity <= 0 then 1 else capacity, capacity <= 0, [], false, map[], [], [])
  }

  // ---- condition variables ----

  function WakeUp<T>(waits: Waits<T>, t: Tid): Waits<T>
    requires t in waits
  {
    waits[t := waits[t].(awake := true)]
  }

  /** Nobody is woken when nobody sleeps. */
  function Signal<T>(waits: Waits<T>, c: CondVar, pick: Tid): Waits<T> {
    if pick in waits && waits[pick].On() == c && !waits[pick].awake then WakeUp(waits, pick) else waits
  }

  function Broadcast<T>(waits: Waits<T>): Waits<T> {
    map t | t in waits :: waits[t].(awake := true)
  }

  function Block<T>(waits: Waits<T>, t: Tid, reason: Reason<T>): Waits<T> {
    waits[t := Wait(reason, false)]
  }

  // ---- critical sections ----

  function SendStep<T>(s: Chan<T>, t: Tid, item: T, pick: Tid): After<T> {
    if |s.items| == s.capacity && !s.closed then After(s.(waits := Block(s.waits, t, ForSlot(item))), Sleeps)
    else if s.closed then After(s, Refused)
    else
      var waits := Signal(s.waits, NotEmpty, pick);
      var s' := s.(items := s.items + [item], accepted := s.accepted + [item]);
      if s.unbuffered then After(s'.(waits := Block(waits, t, ForHandoff(|s.accepted|, item))), Sleeps)
      else After(s'.(waits := waits), Sent)
  }

  function TakeStep<T>(s: Chan<T>, pick: Tid): After<T>
    requires s.items != []
  {
    After(s.(items := s.items[1..], received := s.received + [s.items[0]], waits := Signal(s.waits, NotFull, pick)),
          Got(s.items[0]))
  }

  function RecvStep<T>(s: Chan<T>, t: Tid, pick: Tid): After<T> {
    if s.items == [] && !s.closed then After(s.(waits := Block(s.waits, t, ForItem)), Sleeps)
    else if s.items == [] then After(s, Failed)
    else TakeStep(s, pick)
  }

  function TryRecvStep<T>(s: Chan<T>, pick: Tid): After<T> {
    if s.items == [] then After(s, Failed) else TakeStep(s, pick)
  }

  function CloseStep<T>(s: Chan<T>): After<T> {
    After(s.(closed := true, waits := Broadcast(s.waits)), Quiet)
  }

  function HandoffStep<T>(s: Chan<T>, t: Tid, ticket: nat, sent: T): After<T> {
    if s.items != [] && !s.closed then After(s.(waits := Block(s.waits, t, ForHandoff(ticket, sent))), Sleeps)
    else After(s, Sent)
  }

  /** A woken thread has the lock again and tests its condition. */
  function ResumeStep<T>(s: Chan<T>, t: Tid, pick: Tid): After<T>
    requires t in s.waits
  {
    var here := s.(waits := s.waits - {t});
    match s.waits[t].reason
    case ForSlot(item) => SendStep(here, t, item, pick)
    case ForHandoff(ticket, sent) => HandoffStep(here, t, ticket, sent)
    case ForItem => RecvStep(here, t, pick)
  }

  predicate PickOk<T>(waits: Waits<T>, c: CondVar, pick: Tid) {
    Asleep(waits, c) != {} ==> pick in Asleep(waits, c)
  }

  /** The condition variable a thread running for `reason` may signal. */
  function Signals<T>(reason: Reason<T>): CondVar {
    if reason.ForItem? then NotFull else NotEmpty
  }

  /** A thread calls only when it is not blocked; only woken threads resume;
      a signal wakes a sleeper if there is one. */
  predicate Enabled<T>(s: Chan<T>, e: Event<T>) {
    match e
    case Send(t, _, pick) => t !in s.waits && PickOk(s.waits, NotEmpty, pick)
    case Recv(t, pick) => t !in s.waits && PickOk(s.waits, NotFull, pick)
    case TryRecv(t, pick) => t !in s.waits && PickOk(s.waits, NotFull, pick)
    case Close => true
    case Resume(t, pick) => t in s.waits && s.waits[t].awake && PickOk(s.waits, Signals(s.waits[t].reason), pick)
    case Spurious(t) => t in s.waits && !s.waits[t].awake
  }

  function Apply<T>(s: Chan<T>, e: Event<T>): After<T>
    requires e.Resume? || e.Spurious? ==> e.t in s.waits
  {
    match e
    case Send(t, item, pick) => SendStep(s, t, item, pick)
    case Recv(t, pick) => RecvStep(s, t, pick)
    case TryRecv(_, pick) => TryRecvStep(s, pick)
    case Close => CloseStep(s)
    case Resume(t, pick) => ResumeStep(s, t, pick)
    case Spurious(t) => After(s.(waits := WakeUp(s.waits, t)), Quiet)
  }

  /** All states an event sequence can lead to. */
  ghost predicate Run<T(!new)>(s: Chan<T>, events: seq<Event<T>>, s': Chan<T>)
    decreases |events|
  {
    if events == [] then s' == s
    else Enabled(s, events[0]) && Run(Apply(s, events[0]).s, events[1..], s')
  }

  // ---- nothing lost, nothing invented, nothing reordered ----

  /** After close nobody sleeps; a thread waiting for its hand-over remembers
      its own item. */
  predicate WaitOk<T(==)>(closed: bool, unbuffered: bool, accepted: seq<T>, w: Wait<T>) {
    && (closed ==> w.awake)
    && (w.reason.ForHandoff? ==>
          unbuffered && w.reason.ticket < |accepted| && accepted[w.reason.ticket] == w.reason.sent)
  }

  predicate Delivery<T(==)>(s: Chan<T>) {
    && 1 <= s.capacity && |s.items| <= s.capacity && (s.unbuffered ==> s.capacity == 1)
    && s.accepted == s.received + s.items
    && (forall t {:trigger s.waits[t]} :: t in s.waits ==> WaitOk(s.closed, s.unbuffered, s.accepted, s.waits[t]))
  }

  lemma SignalDelivery<T(!new)>(s: Chan<T>, c: CondVar, pick: Tid)
    requires Delivery(s)
    ensures Delivery(s.(waits := Signal(s.waits, c, pick)))
  {
  }

  lemma BlockDelivery<T(!new)>(s: Chan<T>, t: Tid, reason: Reason<T>)
    requires Delivery(s) && WaitOk(s.closed, s.unbuffered, s.accepted, Wait(reason, false))
    ensures Delivery(s.(waits := Block(s.waits, t, reason)))
  {
  }

  lemma LeaveDelivery<T(!new)>(s: Chan<T>, t: Tid)
    requires Delivery(s)
    ensures Delivery(s.(waits := s.waits - {t}))
  {
  }

  lemma SendDelivery<T(!new)>(s: Chan<T>, t: Tid, item: T, pick: Tid)
    requires Delivery(s)
    ensures Delivery(SendStep(s, t, item, pick).s)
  {
    if |s.items| == s.capacity && !s.closed {
      BlockDelivery(s, t, ForSlot(item));
    } else if !s.closed {
      SignalDelivery(s, NotEmpty, pick);
      var s1 := s.(waits := Signal(s.waits, NotEmpty, pick));
      hide Signal;
      var s2 := s1.(items := s.items + [item], accepted := s.accepted + [item]);
      assert s2.accepted == s2.received + s2.items;
      assert Delivery(s2);
      hide Delivery;
      if s.unbuffered {
        BlockDelivery(s2, t, ForHandoff(|s.accepted|, item));
      }
    }
  }

  lemma TakeDelivery<T(!new)>(s: Chan<T>, pick: Tid)
    requires Delivery(s) && s.items != []
    ensures Delivery(TakeStep(s, pick).s)
  {
    SignalDelivery(s, NotFull, pick);
    hide Signal;
    assert s.received + s.items == s.received + [s.items[0]] + s.items[1..];
  }

  lemma RecvDelivery<T(!new)>(s: Chan<T>, t: Tid, pick: Tid)
    requires Delivery(s)
    ensures Delivery(RecvStep(s, t, pick).s)
  {
    if s.items == [] && !s.closed {
      BlockDelivery(s, t, ForItem);
    } else if s.items != [] {
      TakeDelivery(s, pick);
    }
  }

  lemma ResumeDelivery<T(!new)>(s: Chan<T>, t: Tid, pick: Tid)
    requires Delivery(s) && t in s.waits
    ensures Delivery(ResumeStep(s, t, pick).s)
  {
    hide SendStep;
    hide RecvStep;
    hide Block;
    var here := s.(waits := s.waits - {t});
    LeaveDelivery(s, t);
    match s.waits[t].reason
    case ForSlot(item) => SendDelivery(here, t, item, pick);
    case ForItem => RecvDelivery(here, t, pick);
    case ForHandoff(k, x) =>
      if s.items != [] && !s.closed {
        BlockDelivery(here, t, ForHandoff(k, x));
      }
  }

  lemma DeliveryKept<T(!new)>(s: Chan<T>, e: Event<T>)
    requires Delivery(s) && Enabled(s, e)
    ensures Delivery(Apply(s, e).s)
  {
    hide SendStep;
    hide RecvStep;
    hide TakeStep;
    hide ResumeStep;
    match e
    case Send(t, item, pick) => SendDelivery(s, t, item, pick);
    case Recv(t, pick) => RecvDelivery(s, t, pick);
    case TryRecv(t, pick) =>
      if s.items != [] {
        TakeDelivery(s, pick);
      }
    case Close =>
    case Resume(t, pick) => ResumeDelivery(s, t, pick);
    case Spurious(t) =>
  }

  // ---- wake-ups ----

  /** Free slots are spoken for by senders already woken. */
  predicate SendersWoken<T>(s: Chan<T>) {
    !s.unbuffered && !s.closed && Asleep(s.waits, NotFull) != {} ==>
      s.capacity - |s.items| <= |Woken(s.waits, NotFull)|
  }

  /** Stored items are spoken for by receivers already woken. */
  predicate ReceiversWoken<T>(s: Chan<T>) {
    !s.closed && Asleep(s.waits, NotEmpty) != {} ==> |s.items| <= |Woken(s.waits, NotEmpty)|
  }

  lemma SignalSets<T>(waits: Waits<T>, c: CondVar, d: CondVar, pick: Tid)
    requires PickOk(waits, c, pick)
    ensures d != c ==> Asleep(Signal(waits, c, pick), d) == Asleep(waits, d)
    ensures d != c ==> Woken(Signal(waits, c, pick), d) == Woken(waits, d)
    ensures Asleep(waits, c) == {} ==> Signal(waits, c, pick) == waits
    ensures Asleep(waits, c) != {} ==>
              && Asleep(Signal(waits, c, pick), c) == Asleep(waits, c) - {pick}
              && Woken(Signal(waits, c, pick), c) == Woken(waits, c) + {pick}
              && |Woken(Signal(waits, c, pick), c)| == |Woken(waits, c)| + 1
  {
    if Asleep(waits, c) == {} {
      assert pick !in Asleep(waits, c);
    } else {
      var after := Signal(waits, c, pick);
      assert Woken(after, c) == Woken(waits, c) + {pick};
      assert pick !in Woken(waits, c);
    }
  }

  lemma BlockSets<T>(waits: Waits<T>, t: Tid, reason: Reason<T>, c: CondVar)
    requires t !in waits
    ensures Woken(Block(waits, t, reason), c) == Woken(waits, c)
    ensures Asleep(Block(waits, t, reason), c) ==
            Asleep(waits, c) + (if Wait(reason, false).On() == c then {t} else {})
  {
  }

  lemma LeaveSets<T>(waits: Waits<T>, t: Tid, c: CondVar)
    requires t in waits && waits[t].awake
    ensures Asleep(waits - {t}, c) == Asleep(waits, c)
    ensures Woken(waits - {t}, c) == Woken(waits, c) - (if waits[t].On() == c then {t} else {})
    ensures waits[t].On() == c ==> |Woken(waits - {t}, c)| == |Woken(waits, c)| - 1
  {
    assert Woken(waits - {t}, c) == Woken(waits, c) - (if waits[t].On() == c then {t} else {});
    if waits[t].On() == c {
      assert t in Woken(waits, c);
    }
  }

  lemma WakeUpSets<T>(waits: Waits<T>, t: Tid, c: CondVar)
    requires t in waits && !waits[t].awake
    ensures Asleep(WakeUp(waits, t), c) <= Asleep(waits, c)
    ensures |Woken(WakeUp(waits, t), c)| >= |Woken(waits, c)|
  {
    var after := WakeUp(waits, t);
    if waits[t].On() == c {
      assert Woken(after, c) == Woken(waits, c) + {t};
    } else {
      assert Woken(after, c) == Woken(waits, c);
    }
  }

  /** A send that starts with one woken sender too few. */
  lemma SendWakes<T(!new)>(s: Chan<T>, t: Tid, item: T, pick: Tid)
    requires Delivery(s) && t !in s.waits && PickOk(s.waits, NotEmpty, pick) && ReceiversWoken(s)
    requires SendersAlmost(s)
    ensures SendersWoken(SendStep(s, t, item, pick).s) && ReceiversWoken(SendStep(s, t, item, pick).s)
  {
    hide Asleep;
    hide Woken;
    hide Signal;
    hide Block;
    if !s.closed {
      if |s.items| == s.capacity {
        BlockSets(s.waits, t, ForSlot(item), NotFull);
        BlockSets(s.waits, t, ForSlot(item), NotEmpty);
      } else {
        var waits := Signal(s.waits, NotEmpty, pick);
        SignalSets(s.waits, NotEmpty, NotEmpty, pick);
        SignalSets(s.waits, NotEmpty, NotFull, pick);
        SignalKeys(s.waits, NotEmpty, pick);
        BlockSets(waits, t, ForHandoff(|s.accepted|, item), NotEmpty);
      }
    }
  }

  lemma SignalKeys<T>(waits: Waits<T>, c: CondVar, pick: Tid)
    ensures Signal(waits, c, pick).Keys == waits.Keys
  {
  }

  /** A receive that starts with one woken receiver too few. */
  lemma TakeWakes<T(!new)>(s: Chan<T>, pick: Tid)
    requires Delivery(s) && s.items != [] && PickOk(s.waits, NotFull, pick) && SendersWoken(s)
    requires ReceiversAlmost(s)
    ensures SendersWoken(TakeStep(s, pick).s) && ReceiversWoken(TakeStep(s, pick).s)
  {
    hide Asleep;
    hide Woken;
    hide Signal;
    SignalSets(s.waits, NotFull, NotFull, pick);
    SignalSets(s.waits, NotFull, NotEmpty, pick);
  }

  lemma RecvWakes<T(!new)>(s: Chan<T>, t: Tid, pick: Tid)
    requires Delivery(s) && t !in s.waits && PickOk(s.waits, NotFull, pick) && SendersWoken(s)
    requires ReceiversAlmost(s)
    ensures SendersWoken(RecvStep(s, t, pick).s) && ReceiversWoken(RecvStep(s, t, pick).s)
  {
    hide Asleep;
    hide Woken;
    hide Signal;
    hide Block;
    if s.items != [] {
      TakeWakes(s, pick);
    } else if !s.closed {
      BlockSets(s.waits, t, ForItem, NotFull);
      BlockSets(s.waits, t, ForItem, NotEmpty);
    }
  }

  /** One woken sender, or receiver, too few. */
  predicate SendersAlmost<T>(s: Chan<T>) {
    !s.unbuffered && !s.closed && Asleep(s.waits, NotFull) != {} ==>
      s.capacity - |s.items| <= |Woken(s.waits, NotFull)| + 1
  }

  predicate ReceiversAlmost<T>(s: Chan<T>) {
    !s.closed && Asleep(s.waits, NotEmpty) != {} ==> |s.items| <= |Woken(s.waits, NotEmpty)| + 1
  }

  lemma LeaveWakes<T>(s: Chan<T>, t: Tid)
    requires t in s.waits && s.waits[t].awake && SendersWoken(s) && ReceiversWoken(s)
    ensures var here := s.(waits := s.waits - {t});
            && SendersAlmost(here) && ReceiversAlmost(here)
            && (s.waits[t].On() == NotFull ==> ReceiversWoken(here))
            && (s.waits[t].On() == NotEmpty ==> SendersWoken(here))
  {
    LeaveSets(s.waits, t, NotFull);
    LeaveSets(s.waits, t, NotEmpty);
    hide Asleep;
    hide Woken;
  }

  lemma HandoffWakes<T>(s: Chan<T>, t: Tid, ticket: nat, sent: T)
    requires s.unbuffered && t !in s.waits && ReceiversWoken(s)
    ensures SendersWoken(HandoffStep(s, t, ticket, sent).s) && ReceiversWoken(HandoffStep(s, t, ticket, sent).s)
  {
    BlockSets(s.waits, t, ForHandoff(ticket, sent), NotEmpty);
    hide Asleep;
    hide Woken;
    hide Block;
  }

  lemma ResumeWakes<T(!new)>(s: Chan<T>, t: Tid, pick: Tid)
    requires Delivery(s) && Enabled(s, Resume(t, pick)) && SendersWoken(s) && ReceiversWoken(s)
    ensures SendersWoken(ResumeStep(s, t, pick).s) && ReceiversWoken(ResumeStep(s, t, pick).s)
  {
    var here := s.(waits := s.waits - {t});
    LeaveWakes(s, t);
    LeaveDelivery(s, t);
    LeaveSets(s.waits, t, NotFull);
    LeaveSets(s.waits, t, NotEmpty);
    hide Asleep;
    hide Woken;
    hide SendStep;
    hide RecvStep;
    hide HandoffStep;
    hide SendersWoken;
    hide ReceiversWoken;
    match s.waits[t].reason
    case ForSlot(item) =>
      hide Delivery;
      SendWakes(here, t, item, pick);
    case ForItem =>
      hide Delivery;
      RecvWakes(here, t, pick);
    case ForHandoff(k, x) =>
      HandoffWakes(here, t, k, x);
  }

  ghost predicate Inv<T(!new)>(s: Chan<T>) {
    Delivery(s) && SendersWoken(s) && ReceiversWoken(s)
  }

  lemma NewInv<T(!new)>(capacity: int)
    ensures Inv(New<T>(capacity))
  {
  }

  lemma StepKeeps<T(!new)>(s: Chan<T>, e: Event<T>)
    requires Inv(s) && Enabled(s, e)
    ensures Inv(Apply(s, e).s)
  {
    DeliveryKept(s, e);
    hide Delivery;
    hide SendStep;
    hide RecvStep;
    hide ResumeStep;
    hide TakeStep;
    hide WakeUp;
    match e
    case Send(t, item, pick) => SendWakes(s, t, item, pick);
    case Recv(t, pick) => RecvWakes(s, t, pick);
    case TryRecv(t, pick) =>
      if s.items != [] {
        TakeWakes(s, pick);
      }
    case Close =>
    case Resume(t, pick) => ResumeWakes(s, t, pick);
    case Spurious(t) =>
      WakeUpSets(s.waits, t, NotFull);
      WakeUpSets(s.waits, t, NotEmpty);
  }

  // ---- main results ----

  /** MAIN RESULT. Over every run: the received items are a prefix of the
      accepted ones, the channel holds exactly the rest, and no wake-up of a
      buffered sender or of a receiver is lost. */
  lemma {:induction false} RunKeeps<T(!new)>(s: Chan<T>, events: seq<Event<T>>, s': Chan<T>)
    requires Inv(s) && Run(s, events, s')
    ensures Inv(s')
    decreases |events|
  {
    if events != [] {
      StepKeeps(s, events[0]);
      hide Inv;
      RunKeeps(Apply(s, events[0]).s, events[1..], s');
    }
  }

  lemma ChannelSafe<T(!new)>(capacity: int, events: seq<Event<T>>, s: Chan<T>)
    requires Run(New(capacity), events, s)
    ensures s.accepted == s.received + s.items && |s.items| <= (if capacity <= 0 then 1 else capacity)
    ensures s.closed ==> Asleep(s.waits, NotFull) == {} && Asleep(s.waits, NotEmpty) == {}
    ensures capacity > 0 && !s.closed && Asleep(s.waits, NotFull) != {} ==>
              capacity - |s.items| <= |Woken(s.waits, NotFull)|
    ensures !s.closed && Asleep(s.waits, NotEmpty) != {} ==> |s.items| <= |Woken(s.waits, NotEmpty)|
  {
    NewInv<T>(capacity);
    RunKeeps(New(capacity), events, s);
    RunShape(New(capacity), events, s);
  }

  lemma {:induction false} RunShape<T(!new)>(s: Chan<T>, events: seq<Event<T>>, s': Chan<T>)
    requires Run(s, events, s')
    ensures s'.capacity == s.capacity && s'.unbuffered == s.unbuffered
    decreases |events|
  {
    if events != [] {
      RunShape(Apply(s, events[0]).s, events[1..], s');
    }
  }

  /** Once closed, nothing more is accepted, whatever happens. */
  lemma {:induction false} NothingAfterClose<T(!new)>(s: Chan<T>, events: seq<Event<T>>, s': Chan<T>)
    requires s.closed && Run(s, events, s')
    ensures s'.closed && s'.accepted == s.accepted && s.received <= s'.received
    decreases |events|
  {
    if events != [] {
      NothingAfterClose(Apply(s, events[0]).s, events[1..], s');
    }
  }

  /** A blocking receive fails exactly when the channel is closed and drained:
      every item ever accepted has been received. */
  lemma RecvFailsIff<T(!new)>(s: Chan<T>, e: Event<T>)
    requires Inv(s) && Enabled(s, e)
    requires e.Recv? || (e.Resume? && s.waits[e.t].reason.ForItem?)
    ensures Apply(s, e).out == Failed <==> s.closed && s.received == s.accepted
    ensures Apply(s, e).out == Sleeps <==> !s.closed && s.received == s.accepted
  {
    assert s.received == s.accepted <==> s.items == [];
  }

  /** A send is refused exactly when the channel is closed. */
  lemma SendRefusedIff<T(!new)>(s: Chan<T>, e: Event<T>)
    requires Inv(s) && Enabled(s, e)
    requires e.Send? || (e.Resume? && s.waits[e.t].reason.ForSlot?)
    ensures Apply(s, e).out == Refused <==> s.closed
    ensures Apply(s, e).out == Refused ==> Apply(s, e).s.accepted == s.accepted
    ensures !s.unbuffered && |s.items| < s.capacity && !s.closed ==> Apply(s, e).out == Sent
  {
  }

  /** An unbuffered send that returns while the channel is open has had its
      item received. */
  lemma HandoffDone<T(!new)>(s: Chan<T>, e: Event<T>)
    requires Inv(s) && Enabled(s, e) && s.unbuffered && !s.closed && Apply(s, e).out == Sent
    ensures e.Resume? && s.waits[e.t].reason.ForHandoff?
    ensures s.waits[e.t].reason.ticket < |s.received|
    ensures s.received[s.waits[e.t].reason.ticket] == s.waits[e.t].reason.sent
  {
    assert s.items == [];
  }

  /** When no woken thread is left to run on an open buffered channel, senders
      and receivers do not sleep at the same time. */
  lemma NotBothAsleep<T(!new)>(s: Chan<T>)
    requires Inv(s) && !s.unbuffered && !s.closed
    requires Woken(s.waits, NotFull) == {} && Woken(s.waits, NotEmpty) == {}
    ensures Asleep(s.waits, NotFull) != {} ==> |s.items| == s.capacity
    ensures Asleep(s.waits, NotEmpty) != {} ==> s.items == []
    ensures Asleep(s.waits, NotFull) == {} || Asleep(s.waits, NotEmpty) == {}
  {
    assert SendersWoken(s) && ReceiversWoken(s);
  }

  // ---- unbuffered channels ----

  /** A slot is free, someone sleeps until it is, and nobody is on the way. */
  predicate Stalled<T>(s: Chan<T>) {
    !s.closed && s.items == [] && Asleep(s.waits, NotFull) != {} && Woken(s.waits, NotFull) == {}
  }

  /** Exactly when a receive on an unbuffered channel leads to a stall: its
      signal reached a sender waiting for the hand-over while another slept. */
  lemma StallsIff<T(!new)>(s: Chan<T>, pick: Tid, pick': Tid)
    requires Inv(s) && s.unbuffered && !s.closed && s.items != []
    requires Woken(s.waits, NotFull) == {} && pick in Asleep(s.waits, NotFull)
    ensures Stalled(ResumeStep(TakeStep(s, pick).s, pick, pick').s) <==>
            s.waits[pick].reason.ForHandoff? && Asleep(s.waits, NotFull) != {pick}
  {
    var s1 := TakeStep(s, pick).s;
    SignalSets(s.waits, NotFull, NotFull, pick);
    LeaveSets(s1.waits, pick, NotFull);
    assert s1.items == [];
    if s.waits[pick].reason.ForHandoff? {
      assert Asleep(s.waits, NotFull) - {pick} == {} <==> Asleep(s.waits, NotFull) == {pick};
      hide Asleep;
      hide Woken;
    }
  }

  /** The threads inside a blocking send. */
  function Senders<T>(s: Chan<T>): set<Tid> {
    Asleep(s.waits, NotFull) + Woken(s.waits, NotFull)
  }

  /** At most m sends at a time: one starts only when fewer are in progress. */
  predicate FewSenders<T>(m: nat, s: Chan<T>, e: Event<T>) {
    e.Send? ==> |Senders(s)| < m
  }

  ghost predicate SendersRun<T(!new)>(m: nat, s: Chan<T>, events: seq<Event<T>>, s': Chan<T>)
    decreases |events|
  {
    if events == [] then s' == s
    else Enabled(s, events[0]) && FewSenders(m, s, events[0]) && SendersRun(m, Apply(s, events[0]).s, events[1..], s')
  }

  /** Sender 1 has handed in its item, sender 2 waits for the slot. */
  lemma TwoSendersWait() returns (s1: Chan<int>, s2: Chan<int>)
    ensures var s0, e1, e2 := New<int>(0), Send(1, 10, 0), Send(2, 20, 0);
            && Enabled(s0, e1) && s1 == Apply(s0, e1).s && Enabled(s1, e2) && s2 == Apply(s1, e2).s
            && Senders(s0) == {} && Senders(s1) == {1}
    ensures s2.waits == map[1 := Wait(ForHandoff(0, 10), false), 2 := Wait(ForSlot(20), false)]
    ensures s2.unbuffered && s2.items == [10] && !s2.closed && s2.received == [] && s2.capacity == 1
  {
    s1 := Apply(New<int>(0), Send(1, 10, 0)).s;
    s2 := Apply(s1, Send(2, 20, 0)).s;
    assert s1.waits == map[1 := Wait(ForHandoff(0, 10), false)];
  }

  /** The receiver's signal goes to sender 1, which is done. */
  lemma ReceiveStalls(s2: Chan<int>) returns (s3: Chan<int>, s4: Chan<int>)
    requires s2.waits == map[1 := Wait(ForHandoff(0, 10), false), 2 := Wait(ForSlot(20), false)]
    requires s2.unbuffered && s2.items == [10] && !s2.closed && s2.received == [] && s2.capacity == 1
    ensures Enabled(s2, Recv(3, 1)) && s3 == Apply(s2, Recv(3, 1)).s
    ensures Enabled(s3, Resume(1, 0)) && s4 == Apply(s3, Resume(1, 0)).s && Stalled(s4)
  {
    s3 := Apply(s2, Recv(3, 1)).s;
    s4 := Apply(s3, Resume(1, 0)).s;
    assert 1 in Asleep(s2.waits, NotFull);
    assert s3.waits == map[1 := Wait(ForHandoff(0, 10), true), 2 := Wait(ForSlot(20), false)];
    assert s4.waits == map[2 := Wait(ForSlot(20), false)];
    assert 2 in Asleep(s4.waits, NotFull);
  }

  /** Two senders and one receiver can lose a wake-up: the receiver's signal
      wakes the sender whose item it took, and the other sleeps on. */
  lemma UnbufferedStalls(m: nat)
    requires m >= 2
    ensures exists events, s :: SendersRun(m, New<int>(0), events, s) && Stalled(s)
  {
    var s0 := New<int>(0);
    var e1, e2, e3, e4 := Send(1, 10, 0), Send(2, 20, 0), Recv(3, 1), Resume(1, 0);
    var s1, s2 := TwoSendersWait();
    var s3, s4 := ReceiveStalls(s2);
    hide Senders;
    hide Apply;
    hide Enabled;
    assert SendersRun(m, s4, [], s4);
    RunOf(m, s3, e4, [], s4);
    RunOf(m, s2, e3, [e4], s4);
    RunOf(m, s1, e2, [e3, e4], s4);
    RunOf(m, s0, e1, [e2, e3, e4], s4);
  }

  lemma RunOf<T(!new)>(m: nat, s: Chan<T>, e: Event<T>, rest: seq<Event<T>>, s': Chan<T>)
    requires Enabled(s, e) && FewSenders(m, s, e) && SendersRun(m, Apply(s, e).s, rest, s')
    ensures SendersRun(m, s, [e] + rest, s')
  {
    assert ([e] + rest)[1..] == rest;
  }

  predicate Alone<T>(s: Chan<T>) {
    && (forall t, u :: t in s.waits && u in s.waits && s.waits[t].On() == s.waits[u].On() == NotFull ==> t == u)
    && (forall t :: t in s.waits && !s.closed && s.waits[t].On() == NotFull && !s.waits[t].awake ==> s.items != [])
  }

  lemma AloneSend<T(!new)>(s: Chan<T>, t: Tid, item: T, pick: Tid)
    requires s.unbuffered && s.capacity == 1 && |s.items| <= 1 && t !in s.waits
    requires forall u :: u in s.waits ==> s.waits[u].On() == NotEmpty
    ensures Alone(SendStep(s, t, item, pick).s)
  {
  }

  lemma AloneTake<T(!new)>(s: Chan<T>, pick: Tid)
    requires Alone(s) && s.items != [] && |s.items| <= 1 && PickOk(s.waits, NotFull, pick)
    ensures Alone(TakeStep(s, pick).s)
  {
    PickIsAsleep(s.waits, pick);
    hide PickOk;
  }

  lemma AloneRecv<T(!new)>(s: Chan<T>, t: Tid, pick: Tid)
    requires Alone(s) && |s.items| <= 1 && t !in s.waits && PickOk(s.waits, NotFull, pick)
    ensures Alone(RecvStep(s, t, pick).s)
  {
    if s.items != [] {
      AloneTake(s, pick);
    }
  }

  lemma AloneResume<T(!new)>(s: Chan<T>, t: Tid, pick: Tid)
    requires Alone(s) && s.unbuffered && s.capacity == 1 && |s.items| <= 1 && Enabled(s, Resume(t, pick))
    ensures Alone(ResumeStep(s, t, pick).s)
  {
    hide SendStep;
    hide RecvStep;
    var here := s.(waits := s.waits - {t});
    match s.waits[t].reason
    case ForSlot(item) =>
      AloneSend(here, t, item, pick);
    case ForItem =>
      LeaveSets(s.waits, t, NotFull);
      hide Asleep;
      AloneRecv(here, t, pick);
    case ForHandoff(k, x) =>
  }

  lemma AloneKept<T(!new)>(s: Chan<T>, e: Event<T>)
    requires Inv(s) && s.unbuffered && Alone(s) && Enabled(s, e) && FewSenders(1, s, e)
    ensures Alone(Apply(s, e).s)
  {
    Capacity(s);
    hide Inv;
    match e
    case Send(t, item, pick) =>
      NoneBlocked(s);
      AloneSend(s, t, item, pick);
    case Recv(t, pick) =>
      hide Alone;
      AloneRecv(s, t, pick);
    case TryRecv(t, pick) =>
      if s.items != [] {
        AloneTake(s, pick);
      }
    case Resume(t, pick) =>
      hide Alone;
      AloneResume(s, t, pick);
    case _ =>
  }

  lemma Capacity<T(!new)>(s: Chan<T>)
    requires Inv(s) && s.unbuffered
    ensures |s.items| <= s.capacity == 1
  {
  }

  lemma NoneBlocked<T>(s: Chan<T>)
    requires Asleep(s.waits, NotFull) + Woken(s.waits, NotFull) == {}
    ensures forall t :: t in s.waits ==> s.waits[t].On() == NotEmpty
  {
    forall t | t in s.waits
      ensures s.waits[t].On() == NotEmpty
    {
      assert t !in Asleep(s.waits, NotFull) && t !in Woken(s.waits, NotFull);
    }
  }

  lemma PickIsAsleep<T>(waits: Waits<T>, pick: Tid)
    ensures PickOk(waits, NotFull, pick) ==>
              forall t :: t in waits && waits[t].On() == NotFull && !waits[t].awake ==>
                pick in waits && waits[pick].On() == NotFull && !waits[pick].awake
  {
    if PickOk(waits, NotFull, pick) {
      forall t | t in waits && waits[t].On() == NotFull && !waits[t].awake
        ensures pick in waits && waits[pick].On() == NotFull && !waits[pick].awake
      {
        assert t in Asleep(waits, NotFull);
      }
    }
  }

  /** With one sender at a time an unbuffered channel never stalls. */
  lemma {:induction false} OneSenderNeverStalls<T(!new)>(s: Chan<T>, events: seq<Event<T>>, s': Chan<T>)
    requires Inv(s) && s.unbuffered && Alone(s) && SendersRun(1, s, events, s')
    ensures Alone(s') && !Stalled(s')
    decreases |events|
  {
    if events == [] {
      if !s.closed && s.items == [] {
        assert forall t :: t in s.waits ==> t !in Asleep(s.waits, NotFull);
      }
    } else {
      StepKeeps(s, events[0]);
      AloneKept(s, events[0]);
      hide Inv;
      hide Alone;
      OneSenderNeverStalls(Apply(s, events[0]).s, events[1..], s');
    }
  }

  lemma {:induction false} FewerSenders<T(!new)>(m: nat, n: nat, s: Chan<T>, events: seq<Event<T>>, s': Chan<T>)
    requires m <= n && SendersRun(m, s, events, s')
    ensures SendersRun(n, s, events, s')
    decreases |events|
  {
    hide Senders;
    if events != [] {
      FewerSenders(m, n, Apply(s, events[0]).s, events[1..], s');
    }
  }

  /** MAIN RESULT. No run of an unbuffered channel stalls, if and only if at most
      one thread sends at a time. */
  lemma StallFreeIff(m: nat)
    ensures (forall events, s :: SendersRun(m, New<int>(0), events, s) ==> !Stalled(s)) <==> m <= 1
  {
    if m <= 1 {
      forall events, s | SendersRun(m, New<int>(0), events, s)
        ensures !Stalled(s)
      {
        NewInv<int>(0);
        FewerSenders(m, 1, New<int>(0), events, s);
        OneSenderNeverStalls(New<int>(0), events, s);
      }
    } else {
      UnbufferedStalls(m);
    }
  }
}
