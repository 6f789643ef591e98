/** The circular buffers of os/ipc.c: item k of a stream of values lies in slot k % size. */
module SlotRing {
  import opened Modulo

  /** The index after i, as the buffers of os/ipc.c advance head and tail. */
  function NextSlot(i: nat, size: nat): nat
    requires size > 0
  {
    (i + 1) % size
  }

  lemma SlotAdvance(k: nat, size: nat)
    requires size > 0
    ensures NextSlot(k % size, size) == (k + 1) % size
  {
    ModPlus(k, 1, size);
    ModPlus(k % size, 1, size);
    ModSmall(k % size, size);
  }

  /** Fewer than size items in a row lie in different slots. */
  lemma SlotsDiffer(j: nat, k: nat, size: nat)
    requires size > 0 && j < k < j + size
    ensures j % size != k % size
  {
    ModPlus(j, k - j, size);
  }

  /** head, tail and data of a FIFO32_t; its size is the number of slots. */
  datatype Ring = Ring(head: nat, tail: nat, data: seq<nat>) {
    predicate Valid() { head < |data| && tail < |data| }

    predicate Empty() { head == tail }

    predicate Full()
      requires Valid()
    {
      NextSlot(tail, |data|) == head
    }

    function Store(x: nat): Ring
      requires Valid()
    {
      this.(data := data[tail := x])
    }

    function AdvanceTail(): Ring
      requires Valid()
    {
      this.(tail := NextSlot(tail, |data|))
    }

    function AdvanceHead(): Ring
      requires Valid()
    {
      this.(head := NextSlot(head, |data|))
    }

    /** fifo32_size. */
    function Count(): nat
      requires Valid()
    {
      if tail >= head then tail - head else |data| - (head - tail)
    }
  }

  /** The slots between head and tail hold the values sent and not yet received. */
  ghost predicate Holds(ring: Ring, sent: seq<nat>, received: nat)
  {
    var n := |ring.data|;
    && n > 0 && ring.head == received % n && ring.tail == |sent| % n
    && received <= |sent| < received + n
    && forall k :: received <= k < |sent| ==> ring.data[k % n] == sent[k]
  }

  /** Full says that size - 1 values are unread, and Empty that none is. */
  lemma FullEmptyIff(ring: Ring, sent: seq<nat>, received: nat)
    requires Holds(ring, sent, received)
    ensures ring.Valid()
    ensures ring.Full() <==> |sent| - received == |ring.data| - 1
    ensures ring.Empty() <==> |sent| == received
  {
    var n, d := |ring.data|, |sent| - received;
    SlotAdvance(|sent|, n);
    ModPlus(received, d, n);
    ModPlus(received, d + 1, n);
  }

  lemma StoreHolds(ring: Ring, sent: seq<nat>, received: nat, x: nat)
    requires Holds(ring, sent, received)
    ensures ring.Valid() && Holds(ring.Store(x), sent, received)
  {
    var n := |ring.data|;
    forall k | received <= k < |sent| ensures ring.Store(x).data[k % n] == sent[k] {
      SlotsDiffer(k, |sent|, n);
    }
  }

  lemma AdvanceTailHolds(ring: Ring, sent: seq<nat>, received: nat, x: nat)
    requires Holds(ring, sent, received) && |sent| + 1 < received + |ring.data|
    requires ring.data[|sent| % |ring.data|] == x
    ensures ring.Valid() && Holds(ring.AdvanceTail(), sent + [x], received)
  {
    SlotAdvance(|sent|, |ring.data|);
  }

  lemma AdvanceHeadHolds(ring: Ring, sent: seq<nat>, received: nat)
    requires Holds(ring, sent, received) && received < |sent|
    ensures ring.Valid() && Holds(ring.AdvanceHead(), sent, received + 1)
  {
    SlotAdvance(received, |ring.data|);
  }

  /** fifo32_size between two steps is the number of values sent and not yet received. */
  lemma CountIsUnread(ring: Ring, sent: seq<nat>, received: nat)
    requires Holds(ring, sent, received)
    ensures ring.Valid() && ring.Count() == |sent| - received
  {
    ModPlus(received, |sent| - received, |ring.data|);
  }
}
