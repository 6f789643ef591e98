/** The two sorted waiting lists of os/schedule.c as values: threads blocked on a semaphore, sorted by
    priority, and sleeping threads, sorted by the tick they resume at. */
module WaitQueue {

  /** A waiting thread, what it is sorted by, and when it started to wait. */
  datatype Waiter = Waiter(id: nat, key: nat, since: nat)

  /** a is served before b: a smaller key, or the same key and an earlier arrival. */
  predicate Before(a: Waiter, b: Waiter)
  {
    a.key < b.key || (a.key == b.key && a.since < b.since)
  }

  ghost predicate Sorted(q: seq<Waiter>)
  {
    forall i, j :: 0 <= i < j < |q| ==> Before(q[i], q[j])
  }

  /** A waiter goes before the first one with a larger key. */
  function Insert(q: seq<Waiter>, w: Waiter): (r: seq<Waiter>)
    ensures |r| == |q| + 1
  {
    if q == [] || w.key < q[0].key then [w] + q else [q[0]] + Insert(q[1..], w)
  }

  /** Where Insert puts the waiter. */
  function Position(q: seq<Waiter>, w: Waiter): (k: nat)
    ensures k <= |q|
  {
    if q == [] || w.key < q[0].key then 0 else 1 + Position(q[1..], w)
  }

  /** Insert adds the waiter at one place and keeps everybody else in order. */
  lemma {:induction false} InsertAt(q: seq<Waiter>, w: Waiter)
    ensures var k := Position(q, w);
            && Insert(q, w) == q[..k] + [w] + q[k..]
            && (forall i :: 0 <= i < k ==> q[i].key <= w.key)
            && (k < |q| ==> w.key < q[k].key)
  {
    if q != [] && q[0].key <= w.key {
      InsertAt(q[1..], w);
      var k := Position(q[1..], w);
      assert q[..k + 1] == [q[0]] + q[1..][..k];
      assert q[k + 1..] == q[1..][k..];
      forall i | 0 <= i < k + 1 ensures q[i].key <= w.key {
        if i > 0 { assert q[i] == q[1..][i - 1]; }
      }
    }
  }

  /** Nowhere else would a waiter come after every key up to its own and before a larger one. */
  lemma {:induction false} InsertIs(q: seq<Waiter>, w: Waiter, k: nat)
    requires k <= |q| && (forall i :: 0 <= i < k ==> q[i].key <= w.key) && (k < |q| ==> w.key < q[k].key)
    ensures Insert(q, w) == q[..k] + [w] + q[k..]
  {
    if k > 0 {
      assert forall i :: 0 <= i < k - 1 ==> q[1..][i] == q[i + 1];
      InsertIs(q[1..], w, k - 1);
      assert q[..k] == [q[0]] + q[1..][..k - 1] && q[k..] == q[1..][k - 1..];
    }
  }

  /** Inserting the latest arrival keeps the list sorted by key and, within a key, by arrival. */
  lemma InsertSorted(q: seq<Waiter>, w: Waiter)
    requires Sorted(q) && forall i :: 0 <= i < |q| ==> q[i].since < w.since
    ensures Sorted(Insert(q, w))
  {
    InsertAt(q, w);
    var k := Position(q, w);
    forall i | k <= i < |q| ensures w.key < q[i].key {
      if i > k { assert Before(q[k], q[i]); }
    }
  }

  /** The head of a sorted list is the earliest arrival of the smallest key. */
  lemma HeadIsFirst(q: seq<Waiter>, i: nat)
    requires Sorted(q) && 0 < i < |q|
    ensures q[0].key < q[i].key || (q[0].key == q[i].key && q[0].since < q[i].since)
  {
    assert Before(q[0], q[i]);
  }

  /** Nobody waits twice. */
  ghost predicate Distinct(q: seq<Waiter>)
  {
    forall i, j :: 0 <= i < j < |q| ==> q[i].id != q[j].id
  }

  ghost predicate Waits(q: seq<Waiter>, id: nat)
  {
    exists i :: 0 <= i < |q| && q[i].id == id
  }

  lemma {:induction false} InsertMembers(q: seq<Waiter>, w: Waiter)
    ensures forall x :: x in Insert(q, w) <==> x == w || x in q
  {
    if q != [] && q[0].key <= w.key {
      InsertMembers(q[1..], w);
    }
  }

  lemma InsertWaits(q: seq<Waiter>, w: Waiter)
    requires Distinct(q) && !Waits(q, w.id)
    ensures Distinct(Insert(q, w))
    ensures forall id :: Waits(Insert(q, w), id) <==> id == w.id || Waits(q, id)
    ensures forall x :: x in Insert(q, w) <==> x == w || x in q
  {
    InsertMembers(q, w);
    forall id ensures Waits(Insert(q, w), id) <==> id == w.id || Waits(q, id) {
      hide Insert;
      WaitsIsMember(q, id);
      WaitsIsMember(Insert(q, w), id);
    }
    InsertAt(q, w);
    InsertDistinct(q, w, Position(q, w));
  }

  lemma WaitsIsMember(q: seq<Waiter>, id: nat)
    ensures Waits(q, id) <==> exists x :: x in q && x.id == id
  {
  }

  lemma InsertDistinct(q: seq<Waiter>, w: Waiter, k: nat)
    requires Distinct(q) && !Waits(q, w.id) && k <= |q|
    ensures Distinct(q[..k] + [w] + q[k..])
  {
  }

  lemma PopWaits(q: seq<Waiter>)
    requires q != [] && Distinct(q)
    ensures Distinct(q[1..]) && !Waits(q[1..], q[0].id)
    ensures forall id :: Waits(q, id) <==> id == q[0].id || Waits(q[1..], id)
  {
    forall id | Waits(q, id) && id != q[0].id ensures Waits(q[1..], id) {
      var i :| 0 <= i < |q| && q[i].id == id;
      assert q[1..][i - 1].id == id;
    }
  }
}
