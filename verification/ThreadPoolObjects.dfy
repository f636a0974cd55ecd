/** The linked task queue and the task group. */
module ThreadPoolObjects {
  import opened ThreadPool
  import opened Wrappers

  class QueueNode {
    var task: TaskId
    var next: QueueNode?

    constructor (task: TaskId)
      ensures this.task == task && next == null
    {
      this.task, next := task, null;
    }
  }

  /** What a worker does when it holds the queue lock. */
  datatype Decision = Wait | Leave | Take(task: TaskId)

  function PlaceAfter(d: Decision): Worker {
    match d
    case Wait => Asleep
    case Leave => Exited
    case Take(t) => Running(t)
  }

  class TaskQueue {
    var head: QueueNode?
    var tail: QueueNode?
    var shutdown: bool
    ghost var nodes: seq<QueueNode>   // the list, front first

    constructor ()
      ensures Valid() && Contents() == [] && !shutdown && nodes == []
    {
      head, tail, shutdown, nodes := null, null, false, [];
    }

    ghost predicate Valid()
      reads this, nodes
    {
      && (nodes == [] ==> head == null && tail == null)
      && (nodes != [] ==> head == nodes[0] && tail == nodes[|nodes| - 1] && nodes[|nodes| - 1].next == null)
      && (forall i {:trigger nodes[i].next} :: 0 <= i < |nodes| - 1 ==> nodes[i].next == nodes[i + 1])
      && (forall i, j :: 0 <= i < j < |nodes| ==> nodes[i] != nodes[j])
    }

    /** The queued tasks, front first. */
    ghost function Contents(): seq<TaskId>
      reads this, nodes
    {
      seq(|nodes|, i requires 0 <= i < |nodes| reads this, nodes => nodes[i].task)
    }

    method Push(task: TaskId)
      requires Valid()
      modifies this, nodes
      ensures Valid() && Contents() == old(Contents()) + [task] && shutdown == old(shutdown)
      ensures fresh(set n | n in nodes && n !in old(nodes))
    {
      var node := new QueueNode(task);
      if tail != null {
        tail.next := node;
      } else {
        head := node;
      }
      tail := node;
      nodes := nodes + [node];
    }

    method Pop() returns (task: Option<TaskId>)
      requires Valid()
      modifies this
      ensures Valid() && shutdown == old(shutdown)
      ensures old(Contents()) == [] ==> task == None && Contents() == []
      ensures old(Contents()) != [] ==> task == Some(old(Contents())[0]) && Contents() == old(Contents())[1..]
      ensures forall n :: n in nodes ==> n in old(nodes)
    {
      if head == null {
        return None;
      }
      task := Some(head.task);
      head := head.next;
      if head == null {
        tail := null;
      }
      nodes := nodes[1..];
    }

    /** The worker's loop up to the next wait, exit or task is the step of the
        transition system. */
    method Decide<R>(ghost s: Pool<R>, ghost w: Wid) returns (d: Decision)
      requires Valid() && w < |s.workers| && Contents() == s.queue && shutdown == s.shutdown
      modifies this
      ensures Valid() && Contents() == EnterStep(s, w).queue && shutdown == EnterStep(s, w).shutdown
      ensures EnterStep(s, w).workers[w] == PlaceAfter(d)
      ensures EnterStep(s, w).started == if d.Take? then s.started + [d.task] else s.started
    {
      if head == null && !shutdown {
        return Wait;
      }
      if shutdown && head == null {
        return Leave;
      }
      var task := Pop();
      return Take(task.value);
    }

    /** The final drain frees what is left and says how much that was. */
    method DrainAll() returns (freed: nat)
      requires Valid()
      modifies this
      ensures Valid() && Contents() == [] && freed == |old(Contents())|
    {
      freed := 0;
      while head != null
        invariant Valid() && freed + |Contents()| == |old(Contents())|
        invariant forall n :: n in nodes ==> n in old(nodes)
        decreases |nodes|
      {
        var task := Pop();
        freed := freed + 1;
      }
    }
  }

  const INITIAL_CAPACITY := 8

  /** A growing list of the handles spawned through it; an awaited handle is
      gone. */
  class TaskGroup {
    var tasks: array<Option<TaskId>>
    var count: nat

    constructor ()
      ensures Valid() && fresh(tasks) && Handles() == []
    {
      tasks := new Option<TaskId>[INITIAL_CAPACITY](_ => None);
      count := 0;
    }

    ghost predicate Valid()
      reads this, tasks
    {
      0 < tasks.Length && count <= tasks.Length
    }

    ghost function Handles(): seq<Option<TaskId>>
      requires Valid()
      reads this, tasks
    {
      tasks[..count]
    }

    method Record(t: TaskId)
      requires Valid()
      modifies this, tasks
      ensures Valid() && (tasks == old(tasks) || fresh(tasks))
      ensures Handles() == old(Handles()) + [Some(t)]
    {
      if count >= tasks.Length {
        var larger := new Option<TaskId>[tasks.Length * 2](_ => None);
        forall i | 0 <= i < count {
          larger[i] := tasks[i];
        }
        tasks := larger;
      }
      tasks[count] := Some(t);
      count := count + 1;
    }

    /** Wait for every task in turn. Await i ends in `states[i]`, a state of some
        run, where `done` is what it reads: the results are those of the group's
        own tasks, in spawn order, in every interleaving. */
    method AwaitAll<R(0, !new)>(done: TaskId -> R, ghost run: TaskId -> R, ghost states: seq<Pool<R>>)
      returns (results: array<R>)
      requires Valid() && |states| == |Handles()| && forall i :: 0 <= i < |Handles()| ==> Handles()[i].Some?
      requires forall i :: 0 <= i < |Handles()| ==> AwaitReads(states[i], run, Handles()[i].value, done)
      modifies tasks
      ensures Valid() && fresh(results) && results.Length == |old(Handles())|
      ensures forall i :: 0 <= i < results.Length ==> results[i] == run(old(Handles())[i].value)
      ensures forall i :: 0 <= i < |Handles()| ==> Handles()[i].None?
    {
      results := new R[count];
      var i := 0;
      while i < count
        invariant 0 <= i <= count && Valid()
        invariant forall j :: 0 <= j < i ==> results[j] == run(old(Handles())[j].value) && tasks[j].None?
        invariant forall j :: i <= j < count ==> tasks[j] == old(Handles())[j] && tasks[j].Some?
      {
        AwaitReadsOwn(states[i], run, tasks[i].value, done);
        results[i] := done(tasks[i].value);
        tasks[i] := None;
        i := i + 1;
      }
    }

    /** Freeing a group first awaits, once each, the tasks nobody awaited. */
    method Free() returns (awaited: seq<TaskId>)
      requires Valid()
      modifies tasks
      ensures Valid() && awaited == Pending(old(Handles()))
      ensures forall i :: 0 <= i < |Handles()| ==> Handles()[i].None?
    {
      awaited := [];
      var i := 0;
      ghost var all := Handles();
      while i < count
        invariant 0 <= i <= count && Valid()
        invariant awaited == Pending(all[..i])
        invariant forall j :: 0 <= j < i ==> tasks[j].None?
        invariant forall j :: i <= j < count ==> tasks[j] == all[j]
      {
        assert all[..i + 1][..i] == all[..i];
        if tasks[i] != None {
          awaited := awaited + [tasks[i].value];
          tasks[i] := None;
        }
        i := i + 1;
      }
      assert all[..i] == all;
    }
  }

  /** The handles not yet awaited, in spawn order. */
  function Pending(handles: seq<Option<TaskId>>): seq<TaskId> {
    if handles == [] then []
    else
      Pending(handles[..|handles| - 1]) +
      (if handles[|handles| - 1].Some? then [handles[|handles| - 1].value] else [])
  }

  /** In state s of some run the await of task t has returned, and `done` is
      what it read there. */
  ghost predicate AwaitReads<R(!new)>(s: Pool<R>, run: TaskId -> R, t: TaskId, done: TaskId -> R) {
    Inv(s, run) && t in s.awaits && s.awaits[t] == Returned && (t in s.done ==> done(t) == s.done[t])
  }

  /** An await that has returned has read the result of its own task. */
  lemma AwaitReadsOwn<R(!new)>(s: Pool<R>, run: TaskId -> R, t: TaskId, done: TaskId -> R)
    requires AwaitReads(s, run, t, done)
    ensures t in s.done && done(t) == run(t)
  {
    assert AwaitOk(s, t);
    assert TaskOk(s, run, t);
  }
}
