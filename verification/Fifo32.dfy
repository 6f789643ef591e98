/** FIFO32_t of os/ipc.c in memory: fifo32_init, fifo32_put, fifo32_get and fifo32_size, each called while
    no other call is under way. */
module Fifo32Class {
  import opened Modulo
  import opened Options
  import opened SlotRing

  /** The unread values, oldest first. */
  ghost function Items(r: Ring): (items: seq<nat>)
    requires r.Valid()
    ensures |items| == r.Count()
  {
    seq(r.Count(), i requires 0 <= i < r.Count() => r.data[Slot(r, i)])
  }

  /** Where the unread value i lies. */
  function Slot(r: Ring, i: nat): (k: nat)
    requires r.Valid() && i < |r.data|
    ensures k < |r.data|
  {
    if r.head + i < |r.data| then r.head + i else r.head + i - |r.data|
  }

  lemma NextIs(i: nat, size: nat)
    requires i < size
    ensures NextSlot(i, size) == if i + 1 < size then i + 1 else 0
  {
  }

  /** Storing and advancing tail appends. */
  lemma PutAppends(r: Ring, x: nat)
    requires r.Valid() && !r.Full()
    ensures r.Store(x).AdvanceTail().Valid()
    ensures Items(r.Store(x).AdvanceTail()) == Items(r) + [x]
  {
    NextIs(r.tail, |r.data|);
  }

  /** Loading and advancing head removes the first. */
  lemma GetRemoves(r: Ring)
    requires r.Valid() && !r.Empty()
    ensures r.AdvanceHead().Valid() && Items(r) == [r.data[r.head]] + Items(r.AdvanceHead())
  {
    NextIs(r.head, |r.data|);
  }

  /** A ring refuses a value when one slot is left. */
  lemma FullCount(r: Ring)
    requires r.Valid()
    ensures r.Full() <==> |Items(r)| == |r.data| - 1
  {
    NextIs(r.tail, |r.data|);
  }

  /** In a run of the producer and the consumer, the items are the values sent and not yet received. */
  lemma {:induction false} ItemsAreUnread(r: Ring, sent: seq<nat>, received: nat)
    requires Holds(r, sent, received)
    ensures r.Valid() && Items(r) == sent[received..]
  {
    CountIsUnread(r, sent, received);
    forall i | 0 <= i < |sent| - received ensures Items(r)[i] == sent[received + i] {
      ModPlus(received, i, |r.data|);
      assert r.data[(received + i) % |r.data|] == sent[received + i];
    }
  }

  /** The first value put. */
  function FirstPut(puts: seq<Option<nat>>): Option<nat>
  {
    if puts == [] then None else if puts[0].Some? then puts[0] else FirstPut(puts[1..])
  }

  class Fifo32 {
    var head: nat
    var tail: nat
    const size: nat
    const data: array<nat>

    ghost predicate Valid()
      reads this
    {
      data.Length == size && head < size && tail < size
    }

    ghost function Abs(): Ring
      reads this, data
    {
      Ring(head, tail, data[..])
    }

    ghost function Contents(): seq<nat>
      requires Valid()
      reads this, data
    {
      Items(Abs())
    }

    constructor (size: nat)
      requires size > 0
      ensures Valid() && fresh(data) && this.size == size && Contents() == []
    {
      head, tail := 0, 0;
      this.size := size;
      data := new nat[size];
    }

    /** 1 if the FIFO is full, which is with size - 1 values in it. */
    method Put(x: nat) returns (r: nat)
      requires Valid()
      modifies this, data
      ensures Valid()
      ensures r == if |old(Contents())| == size - 1 then 1 else 0
      ensures Contents() == if r == 0 then old(Contents()) + [x] else old(Contents())
    {
      ghost var a := Abs();
      FullCount(a);
      if (tail + 1) % size == head {
        return 1;
      }
      data[tail] := x;
      tail := (tail + 1) % size;
      assert Abs() == a.Store(x).AdvanceTail();
      PutAppends(a, x);
      return 0;
    }

    /** fifo32_get: suspends while the FIFO is empty. puts is what the producer does during each suspension: one
        put, or nothing. None: the call still waits when they end. */
    method Get(puts: seq<Option<nat>>) returns (r: Option<nat>)
      requires Valid()
      modifies this, data
      ensures Valid()
      ensures r == if old(Contents()) != [] then Some(old(Contents())[0]) else if size > 1 then FirstPut(puts) else None
      ensures Contents() == if old(Contents()) != [] then old(Contents())[1..] else []
    {
      var i := 0;
      while head == tail
        invariant Valid() && i <= |puts|
        invariant old(Contents()) != [] ==> Contents() == old(Contents())
        invariant old(Contents()) == [] ==> Contents() == [] || (size > 1 && |Contents()| == 1 && FirstPut(puts) == Some(Contents()[0]))
        invariant old(Contents()) == [] && Contents() == [] && size > 1 ==> FirstPut(puts) == FirstPut(puts[i..])
        decreases |puts| - i
      {
        if i == |puts| {
          return None;
        }
        if puts[i].Some? {
          var refused := Put(puts[i].value);
        }
        i := i + 1;
      }
      var x := Take();
      return Some(x);
    }

    /** fifo32_get from where its loop ends. */
    method Take() returns (x: nat)
      requires Valid() && head != tail
      modifies this
      ensures Valid() && [x] + Contents() == old(Contents())
    {
      ghost var a := Abs();
      x := data[head];
      head := (head + 1) % size;
      assert Abs() == a.AdvanceHead();
      GetRemoves(a);
    }

    method Size() returns (n: nat)
      requires Valid()
      ensures n == |Contents()|
    {
      if tail >= head {
        n := tail - head;
      } else {
        n := size - (head - tail);
      }
    }
  }
}
