/** The channel object: a ring of slots with two positions and a count. Each
    method is one critical section, from taking the lock to releasing it or to
    blocking on a condition variable. */
module ChannelRing {
  import opened Channel
  import opened Rings

  class LcnChannel<T(0)> {
    const capacity: nat
    const unbuffered: bool
    const buffer: array<T>
    var head: nat
    var tail: nat
    var count: nat
    var closed: bool
    ghost var waits: Waits<T>   // the two condition variables
    ghost var accepted: seq<T>
    ghost var received: seq<T>

    constructor (capacity: int)
      ensures Valid() && fresh(buffer) && Model() == New(capacity)
    {
      this.unbuffered := capacity <= 0;
      var size: nat := if capacity <= 0 then 1 else capacity;
      this.capacity := size;
      buffer := new T[size];
      head, tail, count, closed, waits, accepted, received := 0, 0, 0, false, map[], [], [];
    }

    ghost predicate Valid()
      reads this, buffer
    {
      && buffer.Length == capacity && 0 < capacity
      && head < capacity && count <= capacity && tail == Place(head, count, capacity)
    }

    /** The stored items, oldest first. */
    ghost function Items(): seq<T>
      requires Valid()
      reads this, buffer
    {
      seq(count, i requires 0 <= i < count reads this, buffer requires Valid() => buffer[Place(head, i, capacity)])
    }

    ghost function Model(): Chan<T>
      requires Valid()
      reads this, buffer
    {
      Chan(capacity, unbuffered, Items(), closed, waits, accepted, received)
    }

    /** Copy an item into the tail slot. */
    method Put(item: T)
      requires Valid() && count < capacity
      modifies this`tail, this`count, this`accepted, buffer
      ensures Valid() && Items() == old(Items()) + [item] && accepted == old(accepted) + [item]
    {
      ghost var before := Items();
      PlaceIsModulo(tail, 1, capacity);
      buffer[tail] := item;
      tail := (tail + 1) % capacity;
      count := count + 1;
      accepted := accepted + [item];
      assert Items()[..count - 1] == before;
    }

    /** Copy the item out of the head slot. */
    method Take() returns (item: T)
      requires Valid() && count > 0
      modifies this`head, this`count, this`received
      ensures Valid() && [item] + Items() == old(Items()) && received == old(received) + [item]
    {
      ghost var before := Items();
      PlaceIsModulo(head, 1, capacity);
      item := buffer[head];
      head := (head + 1) % capacity;
      count := count - 1;
      received := received + [item];
      assert before[1..] == Items();
    }

    /** From the head of the send loop to the next block or the end. */
    method SendLocked(ghost t: Tid, item: T, ghost pick: Tid) returns (out: Outcome<T>)
      requires Valid()
      modifies this, buffer
      ensures Valid() && After(Model(), out) == SendStep(old(Model()), t, item, pick)
    {
      if count == capacity && !closed {
        waits := Block(waits, t, ForSlot(item));
        return Sleeps;
      }
      if closed {
        return Refused;
      }
      ghost var ticket := |accepted|;
      Put(item);
      waits := Signal(waits, NotEmpty, pick);
      if unbuffered && count > 0 && !closed {
        waits := Block(waits, t, ForHandoff(ticket, item));
        return Sleeps;
      }
      return Sent;
    }

    method TakeLocked(ghost pick: Tid) returns (out: Outcome<T>)
      requires Valid() && count > 0
      modifies this
      ensures Valid() && After(Model(), out) == TakeStep(old(Model()), pick)
    {
      var item := Take();
      waits := Signal(waits, NotFull, pick);
      return Got(item);
    }

    method RecvLocked(ghost t: Tid, ghost pick: Tid) returns (out: Outcome<T>)
      requires Valid()
      modifies this
      ensures Valid() && After(Model(), out) == RecvStep(old(Model()), t, pick)
    {
      if count == 0 && !closed {
        waits := Block(waits, t, ForItem);
        return Sleeps;
      }
      if count == 0 && closed {
        return Failed;
      }
      out := TakeLocked(pick);
    }

    method TryRecv(ghost pick: Tid) returns (out: Outcome<T>)
      requires Valid()
      modifies this
      ensures Valid() && After(Model(), out) == TryRecvStep(old(Model()), pick)
    {
      if count == 0 {
        return Failed;
      }
      out := TakeLocked(pick);
    }

    method Close()
      requires Valid()
      modifies this
      ensures Valid() && Model() == CloseStep(old(Model())).s
    {
      closed := true;
      waits := Broadcast(waits);
    }

    /** A woken thread has the lock again and goes round its loop. */
    method ResumeSend(ghost t: Tid, item: T, ghost pick: Tid) returns (out: Outcome<T>)
      requires Valid() && t in waits && waits[t].reason == ForSlot(item)
      modifies this, buffer
      ensures Valid() && After(Model(), out) == ResumeStep(old(Model()), t, pick)
    {
      waits := waits - {t};
      out := SendLocked(t, item, pick);
    }

    method ResumeRecv(ghost t: Tid, ghost pick: Tid) returns (out: Outcome<T>)
      requires Valid() && t in waits && waits[t].reason == ForItem
      modifies this
      ensures Valid() && After(Model(), out) == ResumeStep(old(Model()), t, pick)
    {
      waits := waits - {t};
      out := RecvLocked(t, pick);
    }

    method ResumeHandoff(ghost t: Tid, ghost pick: Tid) returns (out: Outcome<T>)
      requires Valid() && t in waits && waits[t].reason.ForHandoff?
      modifies this
      ensures Valid() && After(Model(), out) == ResumeStep(old(Model()), t, pick)
    {
      if count > 0 && !closed {
        waits := waits[t := waits[t].(awake := false)];
        assert waits == Block(old(waits) - {t}, t, old(waits[t].reason));
        return Sleeps;
      }
      waits := waits - {t};
      return Sent;
    }
  }
}
