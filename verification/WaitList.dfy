/** The links of the two sorted waiting lists of os/schedule.c: null-terminated through next_tcb, from a
    semaphore's bthreads_root or from SleepScheduleRoot. They refine the sequences of WaitQueue. */
module WaitListClass {
  import opened RingNodes
  import opened RingSeq
  import opened ThreadNodes
  import opened WaitQueue

  /** A thread as it waits: by its tick in the sleep list, by its priority on a semaphore. */
  ghost function WaiterOf(n: Node<Info, Vars>, byTick: bool): Waiter
    reads n`item
  {
    Waiter(n.info.id, if byTick then n.item.resumeTick else n.info.priority, n.item.since)
  }

  /** What the nodes hold, in their order. */
  ghost function Values(c: seq<Node<Info, Vars>>, byTick: bool): (q: seq<Waiter>)
    reads c`item
    ensures |q| == |c| && forall i :: 0 <= i < |c| ==> q[i] == WaiterOf(c[i], byTick)
  {
    if c == [] then [] else [WaiterOf(c[0], byTick)] + Values(c[1..], byTick)
  }

  /** Each node points to the one after it, and the last to nothing. */
  ghost predicate Chained(c: seq<Node<Info, Vars>>)
    reads c`next
  {
    && (forall i, j :: 0 <= i < |c| && j == i + 1 && j < |c| ==> c[i].next == c[j])
    && (c != [] ==> c[|c| - 1].next == null)
  }

  lemma PlaceNoRepeats(c: seq<Node<Info, Vars>>, k: nat, node: Node<Info, Vars>)
    requires NoRepeats(c) && k <= |c| && node !in c
    ensures NoRepeats(c[..k] + [node] + c[k..])
  {
  }

  lemma {:induction false} ValuesPlace(c: seq<Node<Info, Vars>>, k: nat, node: Node<Info, Vars>, byTick: bool)
    requires k <= |c|
    ensures Values(c[..k] + [node] + c[k..], byTick) == Values(c, byTick)[..k] + [WaiterOf(node, byTick)] + Values(c, byTick)[k..]
  {
  }

  /** A node placed where Insert would put its waiter is an insertion. */
  lemma {:induction false} PlaceIsInsert(c: seq<Node<Info, Vars>>, k: nat, node: Node<Info, Vars>, byTick: bool)
    requires k <= |c|
    requires forall i :: 0 <= i < k ==> WaiterOf(c[i], byTick).key <= WaiterOf(node, byTick).key
    requires k < |c| ==> WaiterOf(node, byTick).key < WaiterOf(c[k], byTick).key
    ensures Values(c[..k] + [node] + c[k..], byTick) == Insert(Values(c, byTick), WaiterOf(node, byTick))
  {
    ValuesPlace(c, k, node, byTick);
    InsertIs(Values(c, byTick), WaiterOf(node, byTick), k);
  }

  class WaitList {
    const byTick: bool
    var root: Node?<Info, Vars>
    ghost var Contents: seq<Node<Info, Vars>>

    ghost predicate Linked()
      reads `root, `Contents, Contents`next
    {
      && (root == if Contents == [] then null else Contents[0])
      && NoRepeats(Contents) && Chained(Contents)
    }

    ghost function Queue(): seq<Waiter>
      reads `Contents, Contents`item
    {
      Values(Contents, byTick)
    }

    constructor (byTick: bool)
      ensures this.byTick == byTick && Linked() && Contents == []
    {
      this.byTick := byTick;
      root, Contents := null, [];
    }

    /** What the list is sorted by. */
    function Key(node: Node<Info, Vars>): (k: nat)
      reads node`item
      ensures k == WaiterOf(node, byTick).key
    {
      if byTick then node.item.resumeTick else node.info.priority
    }

    /** The insertion of sched_block and of sleep: before the first node with a larger key. */
    method InsertNode(node: Node<Info, Vars>)
      requires Linked() && node !in Contents && node.next == null
      modifies `root, `Contents, node`next, Contents`next
      ensures forall n :: n in Contents <==> n == node || n in old(Contents)
      ensures Linked()
      ensures Queue() == Insert(old(Queue()), WaiterOf(node, byTick))
    {
      hide NoRepeats, Chained, Values, WaiterOf, Insert;
      ghost var c := Contents;
      if root == null || Key(node) < Key(root) {
        PlaceIsInsert(c, 0, node, byTick);
        LinkFirst(node);
      } else {
        var at, k := FindPlace(node);
        PlaceIsInsert(c, k, node, byTick);
        LinkAfter(at, node, k);
      }
    }

    /** The walk: to the last node whose key is not larger. */
    method FindPlace(node: Node<Info, Vars>) returns (at: Node<Info, Vars>, ghost k: nat)
      requires Linked() && root != null && Key(node) >= Key(root)
      ensures 0 < k <= |Contents| && at == Contents[k - 1]
      ensures forall i :: 0 <= i < k ==> WaiterOf(Contents[i], byTick).key <= WaiterOf(node, byTick).key
      ensures k < |Contents| ==> WaiterOf(node, byTick).key < WaiterOf(Contents[k], byTick).key
    {
      hide NoRepeats, Chained, WaiterOf;
      at, k := root, 1;
      NextOf(k);
      while at.next != null && Key(node) >= Key(at.next)
        invariant 1 <= k <= |Contents| && at == Contents[k - 1]
        invariant at.next == if k < |Contents| then Contents[k] else null
        invariant forall i :: 0 <= i < k ==> WaiterOf(Contents[i], byTick).key <= WaiterOf(node, byTick).key
        decreases |Contents| - k
      {
        at, k := at.next, k + 1;
        NextOf(k);
      }
    }

    lemma NextOf(k: nat)
      requires Linked() && 1 <= k <= |Contents|
      ensures Contents[k - 1].next == if k < |Contents| then Contents[k] else null
    {
    }

    /** The node becomes the root: it is the only one, or it comes before the old root. */
    method LinkFirst(node: Node<Info, Vars>)
      requires Linked() && node !in Contents && node.next == null
      modifies `root, `Contents, node`next
      ensures Linked() && Contents == old(Contents[..0] + [node] + Contents[0..])
    {
      ghost var c := Contents;
      if root == null {
        root := node;
      } else {
        node.next := root;
        root := node;
      }
      Contents := c[..0] + [node] + c[0..];
    }

    /** The node goes after member k - 1. */
    method LinkAfter(at: Node<Info, Vars>, node: Node<Info, Vars>, ghost k: nat)
      requires Linked() && node !in Contents && node.next == null && 1 <= k <= |Contents| && at == Contents[k - 1]
      modifies `Contents, node`next, at`next
      ensures Linked() && Contents == old(Contents[..k] + [node] + Contents[k..])
    {
      ghost var c := Contents;
      PlaceNoRepeats(c, k, node);
      NextOf(k);
      if at.next == null {
        at.next := node;
      } else {
        node.next := at.next;
        at.next := node;
      }
      Contents := c[..k] + [node] + c[k..];
    }

    /** sched_unblock and unsleep take the head. The code reads the root's link without a test. */
    method RemoveHead() returns (node: Node<Info, Vars>)
      requires Linked() && root != null
      modifies `root, `Contents
      ensures Linked() && node == old(root) && node !in Contents
      ensures [node] + Contents == old(Contents) && [WaiterOf(node, byTick)] + Queue() == old(Queue())
    {
      node := root;
      root := root.next;
      Contents := Contents[1..];
    }
  }
}
