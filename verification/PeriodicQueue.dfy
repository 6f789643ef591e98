/** PeriodicScheduleRoot of os/periodic.c in memory: schedule_background and add_periodic_task on a circular
    doubly linked list, and the periodic timer they arm. */
module PeriodicQueueClass {
  import opened Clock
  import opened RingSeq
  import opened RingNodes
  import opened PeriodicModel

  /** A task's number, which stands for its function, and its period. */
  datatype TaskInfo = TaskInfo(id: nat, period: nat)

  ghost function TaskOf(n: Node<TaskInfo, nat>): Task
    reads n`item
  {
    Task(n.info.id, n.info.period, n.item)
  }

  /** What the nodes hold, in their order. */
  ghost function Values(c: seq<Node<TaskInfo, nat>>): (q: seq<Task>)
    reads c`item
    ensures |q| == |c| && forall i :: 0 <= i < |c| ==> q[i] == TaskOf(c[i])
  {
    if c == [] then [] else [TaskOf(c[0])] + Values(c[1..])
  }

  /** A place that the search may end at is the one PlaceFrom names. */
  lemma PlaceIs(q: seq<Task>, time: nat, k: nat, p: nat)
    requires k <= p <= |q| && (forall i :: k <= i < p ==> q[i].time < time) && (p < |q| ==> time <= q[p].time)
    ensures PlaceFrom(q, time, k) == p
  {
  }

  lemma PlaceNoRepeats(c: seq<Node<TaskInfo, nat>>, k: nat, node: Node<TaskInfo, nat>)
    requires NoRepeats(c) && k <= |c| && node !in c
    ensures NoRepeats(c[..k] + [node] + c[k..])
  {
  }

  lemma {:induction false} ValuesPlace(c: seq<Node<TaskInfo, nat>>, k: nat, node: Node<TaskInfo, nat>)
    requires k <= |c|
    ensures Values(c[..k] + [node] + c[k..]) == Values(c)[..k] + [TaskOf(node)] + Values(c)[k..]
  {
  }

  lemma {:induction false} ValuesRest(c: seq<Node<TaskInfo, nat>>)
    requires c != []
    ensures Values(c) == [TaskOf(c[0])] + Values(c[1..])
  {
  }

  class PeriodicQueue {
    var root: Node?<TaskInfo, nat>
    var armed: nat
    ghost var Contents: seq<Node<TaskInfo, nat>>

    ghost predicate Linked()
      reads `root, `Contents, Contents`next, Contents`prev
    {
      && (root == if Contents == [] then null else Contents[0])
      && NoRepeats(Contents) && Closed(Contents)
    }

    ghost function Tasks(): seq<Task>
      reads `Contents, Contents`item
    {
      Values(Contents)
    }

    /** The tasks' nodes. */
    ghost function Nodes(): set<Node<TaskInfo, nat>>
      reads `Contents
    {
      set n | n in Contents
    }

    constructor ()
      ensures Linked() && Tasks() == [] && Contents == []
    {
      root, armed, Contents := null, 0, [];
    }

    /** The search both functions make: the first node after the root that is not due before time, or the
        root again. */
    method FindPlace(time: nat) returns (node: Node<TaskInfo, nat>, ghost k: nat)
      requires Linked() && Contents != []
      ensures k == PlaceFrom(Tasks(), time, 1)
      ensures node == if PlaceFrom(Tasks(), time, 1) < |Contents| then Contents[PlaceFrom(Tasks(), time, 1)] else Contents[0]
    {
      assert root.next == if |Contents| > 1 then Contents[1] else Contents[0];
      node, k := root.next, 1;
      while node != root && time > node.item
        invariant 1 <= k <= |Contents| && node == if k < |Contents| then Contents[k] else Contents[0]
        invariant forall i :: 1 <= i < k ==> Contents[i].item < time
        decreases |Contents| - k
      {
        assert node.next == if k + 1 < |Contents| then Contents[k + 1] else Contents[0];
        node := node.next;
        k := k + 1;
      }
      PlaceIs(Tasks(), time, 1, k);
    }

    /** Link a node in before another. */
    method InsertBefore(node: Node<TaskInfo, nat>, at: Node<TaskInfo, nat>, ghost k: nat)
      requires Linked() && Contents != [] && node !in Contents
      requires 0 < k <= |Contents| && at == if k < |Contents| then Contents[k] else Contents[0]
      modifies `Contents, node`next, node`prev, Contents`next, Contents`prev
      ensures Linked() && Contents == old(Contents[..k] + [node] + Contents[k..]) && Nodes() == old(Nodes()) + {node}
    {
      ghost var c := Contents;
      SpliceBefore(node, at, c, k);
      PlaceNoRepeats(c, k, node);
      Contents := c[..k] + [node] + c[k..];
      assert c == c[..k] + c[k..];
    }

    /** The root runs, is due again a period later, and moves back behind the tasks due before it. */
    method ScheduleBackground()
      requires Linked() && root != null
      modifies this, Contents
      ensures Linked() && Tasks() == RunRoot(old(Tasks())) && armed == Tasks()[0].time && Nodes() == old(Nodes())
    {
      hide Closed, NoRepeats, Values, Insert, Again;
      var task: Node<TaskInfo, nat> := root;
      DueAgain(task);
      if task.item > task.next.item {
        Requeue(task);
      }
      armed := root.item;
    }

    /** The root's next time, and what its successor is. */
    method DueAgain(task: Node<TaskInfo, nat>)
      requires Linked() && task == root
      modifies task`item
      ensures Tasks() == [Again(old(Tasks())[0])] + old(Tasks())[1..] && task.item == Tasks()[0].time
      ensures task.next != null && task.next.item == if |Contents| > 1 then old(Tasks())[1].time else task.item
    {
      ghost var c, q := Contents, Tasks();
      assert task.next == if |c| > 1 then c[1] else c[0];
      assert forall i :: 1 <= i < |c| ==> c[i] != task;
      hide Closed, NoRepeats;
      task.item := TickAfter(task.item, task.info.period);
      assert Tasks() == [Again(q[0])] + q[1..];
    }

    /** Take the root out. */
    method UnlinkRoot(task: Node<TaskInfo, nat>)
      requires Linked() && |Contents| > 1 && task == root
      modifies `root, `Contents, Contents`next, Contents`prev
      ensures Linked() && Contents == old(Contents)[1..] && task !in Contents
    {
      ghost var c := Contents;
      assert NoRepeats(c[1..]) && task !in c[1..];
      hide Closed, NoRepeats;
      Bridge(task, c, 0);
      assert c[0 + 1..] + c[..0] == c[1..];
      root := task.next;
      Contents := c[1..];
    }

    /** Link a task in where the search says. */
    method InsertInOrder(task: Node<TaskInfo, nat>)
      requires Linked() && Contents != [] && task !in Contents
      modifies `Contents, task`next, task`prev, Contents`next, Contents`prev
      ensures Linked() && Tasks() == Insert(old(Tasks()), TaskOf(task)) && Nodes() == old(Nodes()) + {task}
    {
      hide Closed, NoRepeats, Values, PlaceFrom;
      var node, k := FindPlace(task.item);
      ValuesPlace(Contents, k, task);
      InsertBefore(task, node, k);
    }

    /** Take the root out and insert it again after the new root. */
    method Requeue(task: Node<TaskInfo, nat>)
      requires Linked() && |Contents| > 1 && task == root
      modifies `root, `Contents, Contents`next, Contents`prev
      ensures Linked() && Tasks() == Insert(old(Tasks())[1..], TaskOf(task)) && Nodes() == old(Nodes())
    {
      hide Closed, NoRepeats, Values, Insert;
      ValuesRest(Contents);
      assert Contents == [task] + Contents[1..];
      UnlinkRoot(task);
      InsertInOrder(task);
    }

    /** A new task: alone, at the end of the circle if it is due before the root, or in order. gotMemory says whether
        malloc had memory. held: the call returns with the lock held and interrupts off. */
    method AddPeriodicTask(id: nat, period: nat, now: nat, gotMemory: bool) returns (held: bool)
      requires Linked()
      modifies this, Contents
      ensures Linked() && old(Nodes()) <= Nodes() && fresh(Nodes() - old(Nodes()))
      ensures held <==> !gotMemory
      ensures held ==> Tasks() == old(Tasks()) && armed == old(armed)
      ensures var t := Task(id, period, TickAfter(now, period));
              !held ==> Tasks() == Add(old(Tasks()), t) && armed == if Arms(old(Tasks()), t) then t.time else old(armed)
    {
      hide Closed, NoRepeats, Values, Insert, TickAfter, Arms, Add;
      held := !gotMemory;
      if gotMemory {
        var task := new Node(TaskInfo(id, period), TickAfter(now, period));
        LinkNew(task);
      }
    }

    /** The three cases of add_periodic_task. */
    method LinkNew(task: Node<TaskInfo, nat>)
      requires Linked() && task !in Contents
      modifies this, Contents, task`next, task`prev
      ensures Linked() && Nodes() == old(Nodes()) + {task} && Tasks() == Add(old(Tasks()), TaskOf(task))
      ensures armed == if Arms(old(Tasks()), TaskOf(task)) then task.item else old(armed)
    {
      hide Closed, NoRepeats, Values, Insert;
      if root == null {
        First(task);
        armed := task.item;
      } else {
        if task.item < root.item {
          armed := task.item;
          ValuesPlace(Contents, |Contents|, task);
          InsertBefore(task, root, |Contents|);
        } else {
          InsertInOrder(task);
        }
      }
    }

    /** A task alone in its circle. */
    method First(task: Node<TaskInfo, nat>)
      requires Linked() && Contents == []
      modifies `root, `Contents, task`next, task`prev
      ensures Linked() && Contents == [task] && Tasks() == [TaskOf(task)]
    {
      task.next := task;
      task.prev := task;
      root := task;
      Contents := [task];
    }
  }
}
