/** Every thread is in exactly one place: its priority's ring, the sleep list or one semaphore's
    blocked list; the level counters count each ring. */
module SchedPlacement {
  import opened WaitQueue
  import opened RingSeq
  import opened SchedModel

  predicate OnRing(st: ThreadState) { st == RUNNING || st == ACTIVE }

  /** How many members of a ring are in a state. */
  function Count(threads: map<Tid, Tcb>, ring: seq<Tid>, st: ThreadState): nat
  {
    if ring == [] then 0
    else (if ring[0] in threads && threads[ring[0]].state == st then 1 else 0) + Count(threads, ring[1..], st)
  }

  /** Ring p holds, once each, the threads of priority p that run or could run; limbo threads are in
      the middle of being moved. */
  ghost predicate RingOk(s: Sched, p: nat, limbo: set<Tid>)
    requires s.Shape() && p < PRIORITY_LVL_CNT
  {
    && NoRepeats(s.rings[p])
    && (forall t :: t in s.rings[p] ==> t in s.threads && t !in limbo && s.threads[t].priority == p && OnRing(s.threads[t].state))
    && (forall t :: t in s.threads && t !in limbo && s.threads[t].priority == p && OnRing(s.threads[t].state) ==> t in s.rings[p])
    && s.activeCnt[p] == Count(s.threads, s.rings[p], ACTIVE)
    && s.runningCnt[p] == Count(s.threads, s.rings[p], RUNNING)
  }

  /** A blocked list holds, in priority and arrival order, the threads blocked on its semaphore. */
  ghost predicate BlockedOk(s: Sched, sem: nat, limbo: set<Tid>)
  {
    var q := s.Blocked(sem);
    && Sorted(q) && Distinct(q)
    && (forall i :: 0 <= i < |q| ==>
          && q[i].id in s.threads && q[i].id !in limbo && s.threads[q[i].id].state == BLOCKED(sem)
          && q[i].key == s.threads[q[i].id].priority && q[i].since < s.arrivals)
    && (forall t :: t in s.threads && t !in limbo && s.threads[t].state == BLOCKED(sem) ==> Waits(q, t))
  }

  /** The sleep list holds, in order of tick and arrival, the sleeping threads. */
  ghost predicate SleepersOk(s: Sched, limbo: set<Tid>)
  {
    var q := s.sleepers;
    && Sorted(q) && Distinct(q)
    && (forall i :: 0 <= i < |q| ==>
          && q[i].id in s.threads && q[i].id !in limbo && s.threads[q[i].id].state == SLEEPING
          && q[i].key == s.threads[q[i].id].resumeTick && q[i].since < s.arrivals)
    && (forall t :: t in s.threads && t !in limbo && s.threads[t].state == SLEEPING ==> Waits(q, t))
  }

  ghost predicate Placed(s: Sched, limbo: set<Tid>)
  {
    && s.Shape()
    && limbo <= s.threads.Keys
    && (forall t :: t in s.threads ==> s.threads[t].priority < PRIORITY_LVL_CNT && t <= s.lifetime)
    && (forall p: nat :: p < PRIORITY_LVL_CNT ==> RingOk(s, p, limbo))
    && (forall sem: nat :: BlockedOk(s, sem, limbo))
    && SleepersOk(s, limbo)
  }

  // ---------------------------------------------------------------- counting

  lemma {:induction false} CountAppend(th: map<Tid, Tcb>, a: seq<Tid>, b: seq<Tid>, st: ThreadState)
    ensures Count(th, a + b, st) == Count(th, a, st) + Count(th, b, st)
  {
    if a == [] {
      assert a + b == b;
    } else {
      assert (a + b)[1..] == a[1..] + b;
      CountAppend(th, a[1..], b, st);
    }
  }

  /** Only members' states matter. */
  lemma {:induction false} CountFrame(th: map<Tid, Tcb>, th': map<Tid, Tcb>, ring: seq<Tid>, st: ThreadState)
    requires forall t :: t in ring ==> t in th && t in th' && th[t].state == th'[t].state
    ensures Count(th', ring, st) == Count(th, ring, st)
  {
    if ring != [] { CountFrame(th, th', ring[1..], st); }
  }

  lemma CountSplit(th: map<Tid, Tcb>, ring: seq<Tid>, k: nat, st: ThreadState)
    requires k < |ring| && ring[k] in th
    ensures Count(th, ring, st) ==
            Count(th, ring[..k], st) + (if th[ring[k]].state == st then 1 else 0) + Count(th, ring[k + 1..], st)
  {
    assert ring == ring[..k] + ([ring[k]] + ring[k + 1..]);
    CountAppend(th, ring[..k], [ring[k]] + ring[k + 1..], st);
  }

  /** Changing the state of one member moves one unit between the counts. */
  lemma CountChange(th: map<Tid, Tcb>, th': map<Tid, Tcb>, ring: seq<Tid>, t: Tid, st: ThreadState)
    requires NoRepeats(ring) && t in ring && t in th && t in th'
    requires forall u :: u in ring && u != t ==> u in th && u in th' && th[u].state == th'[u].state
    ensures Count(th', ring, st) - (if th'[t].state == st then 1 else 0) == Count(th, ring, st) - (if th[t].state == st then 1 else 0)
  {
    var k :| 0 <= k < |ring| && ring[k] == t;
    CountSplit(th, ring, k, st);
    CountSplit(th', ring, k, st);
    CountFrame(th, th', ring[..k], st);
    CountFrame(th, th', ring[k + 1..], st);
  }

  lemma {:induction false} CountAll(th: map<Tid, Tcb>, ring: seq<Tid>)
    requires forall t :: t in ring ==> t in th && OnRing(th[t].state)
    ensures Count(th, ring, ACTIVE) + Count(th, ring, RUNNING) == |ring|
  {
    if ring != [] { CountAll(th, ring[1..]); }
  }

  lemma {:induction false} CountWitness(th: map<Tid, Tcb>, ring: seq<Tid>, st: ThreadState) returns (t: Tid)
    requires Count(th, ring, st) > 0
    ensures t in ring && t in th && th[t].state == st
  {
    if ring[0] in th && th[ring[0]].state == st {
      t := ring[0];
    } else {
      t := CountWitness(th, ring[1..], st);
    }
  }

  lemma {:induction false} CountMember(th: map<Tid, Tcb>, ring: seq<Tid>, t: Tid)
    requires t in ring && t in th
    ensures Count(th, ring, th[t].state) > 0
  {
    if ring[0] != t { CountMember(th, ring[1..], t); }
  }

  // ---------------------------------------------------------------- rings

  /** Advancing the root keeps the ring's members and counts. */
  lemma RotatePlaced(s: Sched, p: nat)
    requires Placed(s, {}) && p < PRIORITY_LVL_CNT && s.rings[p] != []
    ensures Placed(SetRing(s, p, Rotate(s.rings[p])), {})
  {
    var s' := SetRing(s, p, Rotate(s.rings[p]));
    var r := s.rings[p];
    assert RingOk(s, p, {});
    CountAppend(s.threads, r[1..], [r[0]], ACTIVE);
    CountAppend(s.threads, r[1..], [r[0]], RUNNING);
    assert forall t :: t in Rotate(r) <==> t in r;
    forall q: nat | q < PRIORITY_LVL_CNT ensures RingOk(s', q, {}) { assert RingOk(s, q, {}); }
    forall sem: nat ensures BlockedOk(s', sem, {}) { assert BlockedOk(s, sem, {}); }
  }

  /** Taking one member out: the rest stays, in ring order from its successor. */
  lemma RemovedRing(th: map<Tid, Tcb>, ring: seq<Tid>, t: Tid)
    requires NoRepeats(ring) && t in ring && t in th
    ensures var r := Removed(ring, t);
            && NoRepeats(r) && |r| == |ring| - 1
            && (forall u :: u in r <==> u in ring && u != t)
            && (forall st :: Count(th, r, st) == Count(th, ring, st) - (if th[t].state == st then 1 else 0))
  {
    var k, r := IndexOf(ring, t), Removed(ring, t);
    forall st ensures Count(th, r, st) == Count(th, ring, st) - (if th[t].state == st then 1 else 0) {
      CountSplit(th, ring, k, st);
      CountAppend(th, ring[k + 1..], ring[..k], st);
    }
    forall u | u in ring && u != t ensures u in r {
      var i :| 0 <= i < |ring| && ring[i] == u;
      if i < k { assert ring[..k][i] == u; } else { assert ring[k + 1..][i - k - 1] == u; }
    }
  }

  // ---------------------------------------------------------------- frames

  /** s' differs from s at most in thread t, as far as lists other than t's are concerned. */
  ghost predicate SameOthers(s: Sched, s': Sched, t: Tid)
  {
    && forall u :: u != t ==> (u in s'.threads <==> u in s.threads) && (u in s.threads ==> s'.threads[u] == s.threads[u])
  }

  lemma RingFrame(s: Sched, s': Sched, p: nat, t: Tid, limbo: set<Tid>, limbo': set<Tid>)
    requires s.Shape() && s'.Shape() && p < PRIORITY_LVL_CNT && RingOk(s, p, limbo) && SameOthers(s, s', t)
    requires s'.rings[p] == s.rings[p] && s'.activeCnt[p] == s.activeCnt[p] && s'.runningCnt[p] == s.runningCnt[p]
    requires limbo - {t} == limbo' - {t} && t !in s.rings[p]
    requires t in s'.threads && t !in limbo' ==> s'.threads[t].priority != p || !OnRing(s'.threads[t].state)
    ensures RingOk(s', p, limbo')
  {
    forall u | u != t ensures u in limbo <==> u in limbo' {
      assert u in limbo - {t} <==> u in limbo' - {t};
    }
    CountFrame(s.threads, s'.threads, s.rings[p], ACTIVE);
    CountFrame(s.threads, s'.threads, s.rings[p], RUNNING);
  }

  lemma BlockedFrame(s: Sched, s': Sched, sem: nat, t: Tid, limbo: set<Tid>, limbo': set<Tid>)
    requires BlockedOk(s, sem, limbo) && SameOthers(s, s', t) && s'.Blocked(sem) == s.Blocked(sem) && s.arrivals <= s'.arrivals
    requires limbo - {t} == limbo' - {t} && !Waits(s.Blocked(sem), t)
    requires t in s'.threads && t !in limbo' ==> s'.threads[t].state != BLOCKED(sem)
    ensures BlockedOk(s', sem, limbo')
  {
    forall u | u != t ensures u in limbo <==> u in limbo' {
      assert u in limbo - {t} <==> u in limbo' - {t};
    }
  }

  lemma SleepersFrame(s: Sched, s': Sched, t: Tid, limbo: set<Tid>, limbo': set<Tid>)
    requires SleepersOk(s, limbo) && SameOthers(s, s', t) && s'.sleepers == s.sleepers && s.arrivals <= s'.arrivals
    requires limbo - {t} == limbo' - {t} && !Waits(s.sleepers, t)
    requires t in s'.threads && t !in limbo' ==> s'.threads[t].state != SLEEPING
    ensures SleepersOk(s', limbo')
  {
    forall u | u != t ensures u in limbo <==> u in limbo' {
      assert u in limbo - {t} <==> u in limbo' - {t};
    }
  }

  /** A thread in limbo, or on a ring, waits nowhere. */
  lemma WaitsNowhere(s: Sched, t: Tid, limbo: set<Tid>)
    requires Placed(s, limbo) && (t !in s.threads || t in limbo || OnRing(s.threads[t].state))
    ensures !Waits(s.sleepers, t) && forall sem: nat :: !Waits(s.Blocked(sem), t)
  {
    forall sem: nat ensures !Waits(s.Blocked(sem), t) {
      assert BlockedOk(s, sem, limbo);
    }
  }

  // ---------------------------------------------------------------- operations

  lemma EnqueuePlaced(s: Sched, t: Tid)
    requires Placed(s, {t})
    ensures s.Has(t) && Placed(Enqueue(s, t), {})
  {
    var s' := Enqueue(s, t);
    var p := s.threads[t].priority;
    WaitsNowhere(s, t, {t});
    forall q: nat | q < PRIORITY_LVL_CNT ensures RingOk(s', q, {}) {
      assert RingOk(s, q, {t});
      if q != p {
        RingFrame(s, s', q, t, {t}, {});
      } else {
        CountFrame(s.threads, s'.threads, s.rings[p], ACTIVE);
        CountFrame(s.threads, s'.threads, s.rings[p], RUNNING);
        assert s'.rings[p][1..] == s.rings[p];
      }
    }
    forall sem: nat ensures BlockedOk(s', sem, {}) {
      assert BlockedOk(s, sem, {t});
      BlockedFrame(s, s', sem, t, {t}, {});
    }
    SleepersFrame(s, s', t, {t}, {});
  }

  /** dequeue_thread on the running thread: the ring becomes empty exactly when it was alone. */
  lemma DequeuePlaced(s: Sched, t: Tid)
    requires Placed(s, {}) && t in s.threads && s.threads[t].state == RUNNING
    ensures s.Has(t) && Placed(Dequeue(s, t), {t})
    ensures var p := s.threads[t].priority; Dequeue(s, t).rings[p] == Removed(s.rings[p], t)
  {
    var s' := Dequeue(s, t);
    var p := s.threads[t].priority;
    assert RingOk(s, p, {});
    CountAll(s.threads, s.rings[p]);
    RemovedRing(s.threads, s.rings[p], t);
    WaitsNowhere(s, t, {});
    forall q: nat | q < PRIORITY_LVL_CNT ensures RingOk(s', q, {t}) {
      assert RingOk(s, q, {});
      if q != p { RingFrame(s, s', q, t, {}, {t}); }
    }
    forall sem: nat ensures BlockedOk(s', sem, {t}) {
      assert BlockedOk(s, sem, {});
      BlockedFrame(s, s', sem, t, {}, {t});
    }
    SleepersFrame(s, s', t, {}, {t});
  }

  /** A running thread that becomes active, or the other way round, with its counters. */
  lemma RestatePlaced(s: Sched, t: Tid, st: ThreadState)
    requires Placed(s, {}) && t in s.threads && OnRing(s.threads[t].state) && OnRing(st) && st != s.threads[t].state
    ensures s.Has(t)
    ensures var p, d := s.threads[t].priority, if st == ACTIVE then 1 else -1;
            Placed(AddRunning(AddActive(SetState(s, t, st), p, d), p, -d), {})
  {
    var p, d := s.threads[t].priority, if st == ACTIVE then 1 else -1;
    var s' := AddRunning(AddActive(SetState(s, t, st), p, d), p, -d);
    WaitsNowhere(s, t, {});
    forall q: nat | q < PRIORITY_LVL_CNT ensures RingOk(s', q, {}) {
      assert RingOk(s, q, {}) && RingOk(s, p, {});
      if q != p {
        RingFrame(s, s', q, t, {}, {});
      } else {
        CountChange(s.threads, s'.threads, s.rings[p], t, ACTIVE);
        CountChange(s.threads, s'.threads, s.rings[p], t, RUNNING);
      }
    }
    forall sem: nat ensures BlockedOk(s', sem, {}) {
      assert BlockedOk(s, sem, {});
      BlockedFrame(s, s', sem, t, {}, {});
    }
    SleepersFrame(s, s', t, {}, {});
  }

  lemma BlockOnPlaced(s: Sched, t: Tid, sem: nat)
    requires Placed(s, {t})
    ensures t in s.threads && Placed(BlockOn(s, t, sem), {})
  {
    var s' := BlockOn(s, t, sem);
    var w := Waiter(t, s.threads[t].priority, s.arrivals);
    WaitsNowhere(s, t, {t});
    forall q: nat | q < PRIORITY_LVL_CNT ensures RingOk(s', q, {}) {
      assert RingOk(s, q, {t});
      RingFrame(s, s', q, t, {t}, {});
    }
    forall x: nat ensures BlockedOk(s', x, {}) {
      assert BlockedOk(s, x, {t});
      if x != sem {
        BlockedFrame(s, s', x, t, {t}, {});
      } else {
        InsertSorted(s.Blocked(sem), w);
        InsertWaits(s.Blocked(sem), w);
        InsertedOk(s, s', s.Blocked(sem), w);
      }
    }
    SleepersFrame(s, s', t, {t}, {});
  }

  /** Entries of a list with one more waiter are the new one or old ones. */
  lemma InsertedOk(s: Sched, s': Sched, q: seq<Waiter>, w: Waiter)
    requires SameOthers(s, s', w.id) && Distinct(q) && !Waits(q, w.id)
    ensures forall i :: 0 <= i < |Insert(q, w)| ==>
              var x := Insert(q, w)[i];
              x == w || (x.id != w.id && exists j :: 0 <= j < |q| && q[j] == x)
  {
    InsertWaits(q, w);
    forall i | 0 <= i < |Insert(q, w)|
      ensures var x := Insert(q, w)[i]; x == w || (x.id != w.id && exists j :: 0 <= j < |q| && q[j] == x)
    {
      assert Insert(q, w)[i] in Insert(q, w);
    }
  }

  lemma SleepOnPlaced(s: Sched, t: Tid, tick: nat)
    requires Placed(s, {t})
    ensures t in s.threads && Placed(SleepOn(s, t, tick), {})
  {
    var s' := SleepOn(s, t, tick);
    var w := Waiter(t, tick, s.arrivals);
    WaitsNowhere(s, t, {t});
    forall q: nat | q < PRIORITY_LVL_CNT ensures RingOk(s', q, {}) {
      assert RingOk(s, q, {t});
      RingFrame(s, s', q, t, {t}, {});
    }
    forall x: nat ensures BlockedOk(s', x, {}) {
      assert BlockedOk(s, x, {t});
      BlockedFrame(s, s', x, t, {t}, {});
    }
    InsertSorted(s.sleepers, w);
    InsertWaits(s.sleepers, w);
    InsertedOk(s, s', s.sleepers, w);
  }

  /** The head of a blocked list leaves it and is in limbo. */
  lemma PopBlockedPlaced(s: Sched, sem: nat)
    requires Placed(s, {}) && s.Blocked(sem) != []
    ensures var t := s.Blocked(sem)[0].id;
            t in s.threads && s.threads[t].state == BLOCKED(sem)
            && Placed(s.(blocked := s.blocked[sem := s.Blocked(sem)[1..]]), {t})
  {
    var q := s.Blocked(sem);
    var t := q[0].id;
    var s' := s.(blocked := s.blocked[sem := q[1..]]);
    assert BlockedOk(s, sem, {});
    PopWaits(q);
    forall p: nat | p < PRIORITY_LVL_CNT ensures RingOk(s', p, {t}) {
      assert RingOk(s, p, {});
      RingFrame(s, s', p, t, {}, {t});
    }
    forall x: nat ensures BlockedOk(s', x, {t}) {
      assert BlockedOk(s, x, {});
      if x != sem { BlockedFrame(s, s', x, t, {}, {t}); }
    }
    SleepersFrame(s, s', t, {}, {t});
  }

  lemma PopSleeperPlaced(s: Sched, alarm: Alarm, now: nat)
    requires Placed(s, {}) && s.sleepers != []
    ensures var t := s.sleepers[0].id;
            t in s.threads && s.threads[t].state == SLEEPING
            && Placed(s.(sleepers := s.sleepers[1..], alarm := alarm, now := now), {t})
  {
    var q := s.sleepers;
    var t := q[0].id;
    var s' := s.(sleepers := q[1..], alarm := alarm, now := now);
    PopWaits(q);
    forall p: nat | p < PRIORITY_LVL_CNT ensures RingOk(s', p, {t}) {
      assert RingOk(s, p, {});
      RingFrame(s, s', p, t, {}, {t});
    }
    forall x: nat ensures BlockedOk(s', x, {t}) {
      assert BlockedOk(s, x, {});
      BlockedFrame(s, s', x, t, {}, {t});
    }
  }

  /** A thread in limbo can be forgotten. */
  lemma ForgetPlaced(s: Sched, t: Tid)
    requires Placed(s, {t})
    ensures Placed(s.(threads := s.threads - {t}), {})
  {
    var s' := s.(threads := s.threads - {t});
    WaitsNowhere(s, t, {t});
    forall p: nat | p < PRIORITY_LVL_CNT ensures RingOk(s', p, {}) {
      assert RingOk(s, p, {t});
      RingFrame(s, s', p, t, {t}, {});
    }
    forall x: nat ensures BlockedOk(s', x, {}) {
      assert BlockedOk(s, x, {t});
      BlockedFrame(s, s', x, t, {t}, {});
    }
    SleepersFrame(s, s', t, {t}, {});
  }

  /** A new thread starts in limbo. */
  lemma CreatePlaced(s: Sched, priority: nat)
    requires Placed(s, {}) && priority < PRIORITY_LVL_CNT
    ensures var t := s.lifetime + 1;
            t !in s.threads && Placed(s.(threads := s.threads[t := Tcb(priority, ACTIVE, 0)], lifetime := t), {t})
  {
    var t := s.lifetime + 1;
    var s' := s.(threads := s.threads[t := Tcb(priority, ACTIVE, 0)], lifetime := t);
    WaitsNowhere(s, t, {});
    forall p: nat | p < PRIORITY_LVL_CNT ensures RingOk(s', p, {t}) {
      assert RingOk(s, p, {});
      RingFrame(s, s', p, t, {}, {t});
    }
    forall x: nat ensures BlockedOk(s', x, {t}) {
      assert BlockedOk(s, x, {});
      BlockedFrame(s, s', x, t, {}, {t});
    }
    SleepersFrame(s, s', t, {}, {t});
  }

  /** Cores, alarm, clock and the idle level play no part in where threads are. */
  lemma PlacedElsewhere(s: Sched, s': Sched, limbo: set<Tid>)
    requires Placed(s, limbo) && s'.Shape()
    requires s'.threads == s.threads && s'.rings == s.rings && s'.runningCnt == s.runningCnt && s'.sleepers == s.sleepers
    requires s'.blocked == s.blocked && s'.lifetime == s.lifetime && s'.arrivals == s.arrivals
    requires forall p :: 0 <= p < PRIORITY_LVL_CNT ==> s'.activeCnt[p] == s.activeCnt[p]
    ensures Placed(s', limbo)
  {
    forall p: nat | p < PRIORITY_LVL_CNT ensures RingOk(s', p, limbo) { assert RingOk(s, p, limbo); }
    forall x: nat ensures BlockedOk(s', x, limbo) { assert BlockedOk(s, x, limbo); }
  }
}
