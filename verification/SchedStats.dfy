/** What scheduler_stats adds up: the level counters count threads by state. */
module SchedStats {
  import opened RingSeq
  import opened SchedModel
  import opened SchedPlacement
  import opened SchedSafety

  function SumFirst(a: seq<int>, n: nat): int
    requires n <= |a|
  {
    if n == 0 then 0 else SumFirst(a, n - 1) + a[n - 1]
  }

  /** The threads in a state. */
  function InState(s: Sched, st: ThreadState): set<Tid>
  {
    set t | t in s.threads && s.threads[t].state == st
  }

  /** The threads in a state with a priority below n. */
  function InStateBelow(s: Sched, st: ThreadState, n: nat): set<Tid>
  {
    set t | t in s.threads && s.threads[t].state == st && s.threads[t].priority < n
  }

  function Members(threads: map<Tid, Tcb>, ring: seq<Tid>, st: ThreadState): set<Tid>
  {
    set t | t in ring && t in threads && threads[t].state == st
  }

  lemma {:induction false} CountIsSize(threads: map<Tid, Tcb>, ring: seq<Tid>, st: ThreadState)
    requires NoRepeats(ring)
    ensures Count(threads, ring, st) == |Members(threads, ring, st)|
  {
    if ring != [] {
      CountIsSize(threads, ring[1..], st);
      var t, rest := ring[0], Members(threads, ring[1..], st);
      assert t !in ring[1..];
      if t in threads && threads[t].state == st {
        assert Members(threads, ring, st) == rest + {t};
      } else {
        assert Members(threads, ring, st) == rest;
      }
    }
  }

  lemma {:induction false} SumIsSize(s: Sched, counts: seq<int>, st: ThreadState, n: nat)
    requires Placed(s, {}) && OnRing(st) && n <= PRIORITY_LVL_CNT <= |counts|
    requires forall p :: 0 <= p < n ==> counts[p] == Count(s.threads, s.rings[p], st)
    ensures SumFirst(counts, n) == |InStateBelow(s, st, n)|
  {
    if n == 0 {
      assert InStateBelow(s, st, 0) == {};
    } else {
      var p: nat := n - 1;
      SumIsSize(s, counts, st, p);
      assert RingOk(s, p, {});
      CountIsSize(s.threads, s.rings[p], st);
      var level := Members(s.threads, s.rings[p], st);
      assert InStateBelow(s, st, n) == InStateBelow(s, st, p) + level;
      assert InStateBelow(s, st, p) !! level;
    }
  }

  /** The counters add up to the numbers of RUNNING and ACTIVE threads; the RUNNING ones are those the
      cores own, so never more than two. */
  lemma StatsExact(s: Sched)
    requires Inv(s)
    ensures SumFirst(s.runningCnt, PRIORITY_LVL_CNT) == |InState(s, RUNNING)|
    ensures SumFirst(s.activeCnt, PRIORITY_LVL_CNT) == |InState(s, ACTIVE)|
    ensures InState(s, RUNNING) == OwnedBy(s, 0) + OwnedBy(s, 1) && |InState(s, RUNNING)| <= 2
  {
    forall p: nat | p < PRIORITY_LVL_CNT
      ensures s.runningCnt[p] == Count(s.threads, s.rings[p], RUNNING) && s.activeCnt[p] == Count(s.threads, s.rings[p], ACTIVE)
    {
      assert RingOk(s, p, {});
    }
    SumIsSize(s, s.runningCnt, RUNNING, PRIORITY_LVL_CNT);
    SumIsSize(s, s.activeCnt, ACTIVE, PRIORITY_LVL_CNT);
    assert InStateBelow(s, RUNNING, PRIORITY_LVL_CNT) == InState(s, RUNNING);
    assert InStateBelow(s, ACTIVE, PRIORITY_LVL_CNT) == InState(s, ACTIVE);
  }

  /** What scheduler_stats reports: the threads the cores own, the ACTIVE threads, and those ever created. */
  ghost predicate IsStats(s: Sched, running: int, active: int, lifetime: int)
    requires s.Shape()
  {
    && running == |InState(s, RUNNING)| && InState(s, RUNNING) == OwnedBy(s, 0) + OwnedBy(s, 1)
    && active == |InState(s, ACTIVE)| && lifetime == s.lifetime
  }
}
