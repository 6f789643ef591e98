/** Circular doubly linked lists: the nodes that os/schedule.c threads through next_tcb and prev_tcb and
    os/periodic.c through next and prev, and the two changes of links that both make. */
module RingNodes {
  import opened RingSeq

  /** A control block: what it is set up with for good, its two links, and what changes in it. */
  class Node<I, T> {
    const info: I
    var next: Node?<I, T>
    var prev: Node?<I, T>
    var item: T

    constructor (info: I, item: T)
      ensures this.info == info && this.item == item && next == null && prev == null
    {
      this.info, next, prev, this.item := info, null, null, item;
    }
  }

  /** Consecutive members are linked both ways. */
  ghost predicate Adjacent<I, T>(c: seq<Node<I, T>>)
    reads c`next, c`prev
  {
    forall i, j :: 0 <= i < |c| && j == i + 1 && j < |c| ==> c[i].next == c[j] && c[j].prev == c[i]
  }

  /** A circle in both directions. */
  ghost predicate Closed<I, T>(c: seq<Node<I, T>>)
    reads c`next, c`prev
  {
    c != [] ==> Adjacent(c) && c[|c| - 1].next == c[0] && c[0].prev == c[|c| - 1]
  }

  /** Join the two neighbours of member k: the others are a circle from its successor. */
  method Bridge<I, T>(node: Node<I, T>, ghost c: seq<Node<I, T>>, ghost k: nat)
    requires NoRepeats(c) && Closed(c) && k < |c| && node == c[k]
    modifies c`next, c`prev
    ensures |c| > 1 ==> var r := c[k + 1..] + c[..k]; Closed(r) && node.next == r[0]
    ensures |c| == 1 ==> node.next == node
  {
    ghost var n := |c|;
    assert node.prev == if k > 0 then c[k - 1] else c[n - 1];
    assert node.next == if k < n - 1 then c[k + 1] else c[0];
    node.prev.next := node.next;
    node.next.prev := node.prev;
  }

  /** Link a node in before member k, or before the first at the end of the circle. */
  method SpliceBefore<I, T>(node: Node<I, T>, at: Node<I, T>, ghost c: seq<Node<I, T>>, ghost k: nat)
    requires NoRepeats(c) && Closed(c) && c != [] && node !in c
    requires k <= |c| && at == if k < |c| then c[k] else c[0]
    modifies node`next, node`prev, c`next, c`prev
    ensures Closed(c[..k] + [node] + c[k..])
  {
    ghost var n := |c|;
    assert at.prev == if k == 0 || k == n then c[n - 1] else c[k - 1];
    node.next := at;
    node.prev := at.prev;
    node.prev.next := node;
    at.prev := node;
  }
}
