/** The scheduler's shared objects: the run queue threaded through the green
    threads themselves, the throttle, and the counters behind the lock. */
module GreenThreadObjects {
  import opened GreenThreads
  import opened Wrappers

  class GreenThread {
    const id: Gid
    var next: GreenThread?

    constructor (id: Gid)
      ensures this.id == id && next == null
    {
      this.id, next := id, null;
    }
  }

  class GreenRunQueue {
    var head: GreenThread?
    var tail: GreenThread?
    var count: nat
    ghost var threads: seq<GreenThread>   // the list, front first

    constructor ()
      ensures Valid() && Contents() == [] && threads == []
    {
      head, tail, count, threads := null, null, 0, [];
    }

    ghost predicate Valid()
      reads this, threads
    {
      && count == |threads|
      && (threads == [] ==> head == null && tail == null)
      && (threads != [] ==> head == threads[0] && tail == threads[|threads| - 1] && threads[|threads| - 1].next == null)
      && (forall i {:trigger threads[i].next} :: 0 <= i < |threads| - 1 ==> threads[i].next == threads[i + 1])
      && (forall i, j :: 0 <= i < j < |threads| ==> threads[i] != threads[j])
    }

    ghost function Contents(): (r: seq<Gid>)
      reads this, threads
      ensures |r| == |threads|
    {
      seq(|threads|, i requires 0 <= i < |threads| reads this, threads => threads[i].id)
    }

    /** A thread not in the queue goes to its end. */
    method Push(gt: GreenThread)
      requires Valid() && gt !in threads
      modifies this, threads, gt
      ensures Valid() && Contents() == old(Contents()) + [gt.id] && threads == old(threads) + [gt]
    {
      gt.next := null;
      if tail != null {
        tail.next := gt;
      } else {
        head := gt;
      }
      tail := gt;
      count := count + 1;
      threads := threads + [gt];
    }

    /** The thread at the front, unlinked; null when there is none. */
    method TryPop() returns (gt: GreenThread?)
      requires Valid()
      modifies this, threads
      ensures Valid()
      ensures gt == null <==> old(Contents()) == []
      ensures gt == null ==> threads == old(threads) && Contents() == old(Contents())
      ensures gt != null ==>
                && threads == old(threads)[1..] && gt == old(threads)[0] && gt.next == null
                && [gt.id] + Contents() == old(Contents())
    {
      gt := head;
      if gt != null {
        head := gt.next;
        if head == null {
          tail := null;
        }
        count := count - 1;
        gt.next := null;
        threads := threads[1..];
        assert [gt.id] + Contents() == old(Contents());
      }
    }
  }

  /** The semaphore: each method is one critical section. */
  class GreenThrottle {
    const maxConcurrent: nat
    var active: int

    constructor (n: nat)
      ensures maxConcurrent == n && active == 0
    {
      maxConcurrent, active := n, 0;
    }

    /** One turn of the loop: take a slot, or wait for one. */
    method TryAcquire() returns (taken: bool)
      modifies this
      ensures taken == (old(active) < maxConcurrent)
      ensures active == if taken then old(active) + 1 else old(active)
    {
      if active >= maxConcurrent {
        return false;
      }
      active := active + 1;
      return true;
    }

    method Release()
      modifies this
      ensures active == old(active) - 1
    {
      active := active - 1;
    }
  }

  /** What the scheduler's lock protects. */
  class GreenScheduler {
    var nextId: nat
    var aliveCount: int
    var shutdown: bool
    ghost var closer: Closer

    constructor ()
      ensures nextId == 1 && aliveCount == 0 && !shutdown && closer == NotYet
    {
      nextId, aliveCount, shutdown, closer := 1, 0, false, NotYet;
    }

    method CountSpawn() returns (id: nat)
      modifies this
      ensures id == old(nextId) && nextId == id + 1 && aliveCount == old(aliveCount) + 1
      ensures shutdown == old(shutdown) && closer == old(closer)
    {
      id := nextId;
      nextId := nextId + 1;
      aliveCount := aliveCount + 1;
    }

    /** A completed thread is counted out; at zero `all_done` is signalled. */
    method CountOut<R>(ghost s: Sched<R>)
      requires s.alive == aliveCount && s.closer == closer && s.shutdown == shutdown
      modifies this
      ensures aliveCount == CountDown(s).alive && closer == CountDown(s).closer && shutdown == CountDown(s).shutdown
      ensures nextId == old(nextId)
    {
      aliveCount := aliveCount - 1;
      if aliveCount == 0 && closer == Waiting(false) {
        closer := Waiting(true);
      }
    }

    /** One turn of the shutdown loop: wait, or set the flag. */
    method TryClose<R>(ghost s: Sched<R>, ghost run: Gid -> R) returns (closed: bool)
      requires s.alive == aliveCount && s.closer == closer && s.shutdown == shutdown && Enabled(s, Close)
      modifies this
      ensures var s' := Step(s, run, Close);
              aliveCount == s'.alive && closer == s'.closer && shutdown == s'.shutdown
      ensures closed == (aliveCount <= 0) && nextId == old(nextId)
    {
      if aliveCount > 0 {
        closer := Waiting(false);
        return false;
      }
      shutdown := true;
      closer := Past;
      return true;
    }
  }
}
