/** One level of ThreadSchedule: a root and the circular doubly linked list that enqueue_thread,
    dequeue_thread and schedule change. */
module ThreadRingClass {
  import opened RingSeq
  import opened RingNodes
  import opened ThreadNodes

  lemma RemovedNoRepeats(c: seq<Node<Info, Vars>>, t: Node<Info, Vars>)
    requires NoRepeats(c) && t in c
    ensures NoRepeats(Removed(c, t)) && forall u :: u in Removed(c, t) <==> u in c && u != t
  {
    var k, r := IndexOf(c, t), Removed(c, t);
    forall u | u in c && u != t ensures u in r {
      var i :| 0 <= i < |c| && c[i] == u;
      if i < k { assert c[..k][i] == u; } else { assert c[k + 1..][i - k - 1] == u; }
    }
  }

  lemma RemovedAt(c: seq<Node<Info, Vars>>, k: nat)
    requires k < |c| && k == IndexOf(c, c[k])
    ensures Removed(c, c[k]) == c[k + 1..] + c[..k]
  {
  }

  class ThreadRing {
    var root: Node?<Info, Vars>
    ghost var Contents: seq<Node<Info, Vars>>

    /** The links join the members of Contents, each once, in a circle from the root. */
    ghost predicate Linked()
      reads `root, `Contents, Contents`next, Contents`prev
    {
      && (root == if Contents == [] then null else Contents[0])
      && NoRepeats(Contents) && Closed(Contents)
    }

    constructor ()
      ensures Contents == [] && Linked()
    {
      root, Contents := null, [];
    }

    /** The links of enqueue_thread: the thread becomes the root, before the old one. */
    method PushFront(thread: Node<Info, Vars>)
      requires Linked() && thread !in Contents
      modifies `root, `Contents, thread`next, thread`prev, Contents`next, Contents`prev
      ensures Linked() && Contents == [thread] + old(Contents)
    {
      if root == null {
        root := thread;
        thread.next := thread;
        thread.prev := thread;
      } else {
        SpliceBefore(thread, root, Contents, 0);
        root := thread;
        assert Contents[..0] + [thread] + Contents[0..] == [thread] + Contents;
      }
      Contents := [thread] + Contents;
    }

    /** The links of dequeue_thread, given whether both counters are zero: the thread leaves the circle and its
        successor becomes the root. A thread alone on its level stays its root if a counter is not zero. */
    method Remove(thread: Node<Info, Vars>, countersZero: bool)
      requires Linked() && thread in Contents && (countersZero ==> |Contents| == 1)
      modifies `root, `Contents, Contents`next, Contents`prev
      ensures thread.next == null
      ensures countersZero || |old(Contents)| > 1 ==> Linked() && Contents == Removed(old(Contents), thread)
      ensures !countersZero && |old(Contents)| == 1 ==> !Linked() && root == thread && Contents == old(Contents)
    {
      if countersZero {
        root := null;
        thread.next := null;
        Contents := [];
      } else {
        Unlink(thread);
      }
    }

    /** The branch of dequeue_thread that updates the neighbours. */
    method Unlink(thread: Node<Info, Vars>)
      requires Linked() && thread in Contents
      modifies `root, `Contents, Contents`next, Contents`prev
      ensures thread.next == null
      ensures |old(Contents)| > 1 ==> Linked() && Contents == Removed(old(Contents), thread)
      ensures |old(Contents)| == 1 ==> root == thread && Contents == old(Contents) == [thread]
    {
      hide NoRepeats, Removed, Closed, IndexOf;
      ghost var c, k := Contents, IndexOf(Contents, thread);
      RemovedNoRepeats(c, thread);
      RemovedAt(c, k);
      Bridge(thread, c, k);
      root := thread.next;
      thread.next := null;
      Contents := if |c| > 1 then Removed(c, thread) else c;
    }

    /** schedule and init_scheduler move the root on. */
    method Advance()
      requires Linked() && root != null
      modifies `root, `Contents
      ensures Linked() && Contents == Rotate(old(Contents))
      ensures root == old(root.next)
    {
      assert root.next == if |Contents| == 1 then Contents[0] else Contents[1];
      root := root.next;
      Contents := Rotate(Contents);
    }

    /** The thread after the root. */
    lemma NextOfRoot()
      requires Linked() && Contents != []
      ensures root != null && root == Contents[0] && root.next == Rotate(Contents)[0]
    {
    }
  }
}
