/** Safety of the two-core scheduler over all runs, in terms of threads and lists. */
module SchedTheorems {
  import opened Options
  import opened WaitQueue
  import opened RingSeq
  import opened SchedModel
  import opened SchedPlacement
  import opened SchedSafety

  // ---------------------------------------------------------------- over all runs

  /** In every reachable state each thread is in exactly one place, once, told by its state: its
      priority's ring, the sleep list or the blocked list of the semaphore it waits for. */
  lemma EveryThreadInOnePlace(events: seq<Event>, s: Sched)
    requires After(Initial(), events) == Some(s)
    ensures s.Shape() && forall t :: t in s.threads ==> s.threads[t].priority < PRIORITY_LVL_CNT
    ensures forall p: nat, t :: p < PRIORITY_LVL_CNT ==>
              (t in s.rings[p] <==> t in s.threads && s.threads[t].priority == p && OnRing(s.threads[t].state))
    ensures forall t :: Waits(s.sleepers, t) <==> t in s.threads && s.threads[t].state == SLEEPING
    ensures forall sem: nat, t :: Waits(s.Blocked(sem), t) <==> t in s.threads && s.threads[t].state == BLOCKED(sem)
    ensures forall p: nat :: p < PRIORITY_LVL_CNT ==> NoRepeats(s.rings[p])
    ensures Distinct(s.sleepers) && forall sem: nat :: Distinct(s.Blocked(sem))
  {
    RunInv(events);
    InvPlaced(s);
    hide Inv, Placed, Count, Waits, Distinct, NoRepeats;
    forall p: nat | p < PRIORITY_LVL_CNT
      ensures NoRepeats(s.rings[p])
      ensures forall t :: t in s.rings[p] <==> t in s.threads && s.threads[t].priority == p && OnRing(s.threads[t].state)
    {
      RingPlace(s, p);
    }
    SleepPlace(s);
    forall sem: nat
      ensures Distinct(s.Blocked(sem))
      ensures forall t :: Waits(s.Blocked(sem), t) <==> t in s.threads && s.threads[t].state == BLOCKED(sem)
    {
      BlockedPlace(s, sem);
    }
  }

  /** In every reachable state the level counters are the numbers of ACTIVE and RUNNING members of each
      ring, and a ring is empty iff both are zero. */
  lemma CountersMatchRings(events: seq<Event>, s: Sched, p: nat)
    requires After(Initial(), events) == Some(s) && p < PRIORITY_LVL_CNT
    ensures s.Shape()
    ensures s.activeCnt[p] == Count(s.threads, s.rings[p], ACTIVE)
    ensures s.runningCnt[p] == Count(s.threads, s.rings[p], RUNNING)
    ensures s.rings[p] == [] <==> s.activeCnt[p] == 0 && s.runningCnt[p] == 0
  {
    RunInv(events);
    InvPlaced(s);
    RingPlace(s, p);
  }

  lemma InvPlaced(s: Sched)
    requires Inv(s)
    ensures Placed(s, {}) && s.Shape() && forall t :: t in s.threads ==> s.threads[t].priority < PRIORITY_LVL_CNT
  {
  }

  lemma RingPlace(s: Sched, p: nat)
    requires Placed(s, {}) && p < PRIORITY_LVL_CNT
    ensures RingOk(s, p, {})
    ensures s.rings[p] == [] <==> s.activeCnt[p] == 0 && s.runningCnt[p] == 0
  {
    assert RingOk(s, p, {});
    CountAll(s.threads, s.rings[p]);
  }

  lemma SleepPlace(s: Sched)
    requires Placed(s, {})
    ensures Distinct(s.sleepers)
    ensures forall t :: Waits(s.sleepers, t) <==> t in s.threads && s.threads[t].state == SLEEPING
  {
    hide RingOk, BlockedOk;
    assert SleepersOk(s, {});
  }

  lemma BlockedPlace(s: Sched, sem: nat)
    requires Placed(s, {})
    ensures Distinct(s.Blocked(sem))
    ensures forall t :: Waits(s.Blocked(sem), t) <==> t in s.threads && s.threads[t].state == BLOCKED(sem)
  {
    hide RingOk, SleepersOk;
    assert BlockedOk(s, sem, {});
  }

  /** In every reachable state the RUNNING threads are exactly the ones the cores own, and no thread is
      owned by both cores. */
  lemma NoThreadShared(events: seq<Event>, s: Sched)
    requires After(Initial(), events) == Some(s)
    ensures s.Shape()
    ensures forall t :: t in s.threads ==>
              (s.threads[t].state == RUNNING <==> Thread(t) == s.cores[0].Owned() || Thread(t) == s.cores[1].Owned())
    ensures s.cores[0].Owned().Thread? ==> s.cores[0].Owned() != s.cores[1].Owned() && s.cores[0].Owned().id in s.threads
  {
    RunInv(events);
    forall t | t in s.threads
      ensures s.threads[t].state == RUNNING <==> Thread(t) == s.cores[0].Owned() || Thread(t) == s.cores[1].Owned()
    {
      assert t in OwnedBy(s, 0) <==> s.cores[0].Owned() == Thread(t);
      assert t in OwnedBy(s, 1) <==> s.cores[1].Owned() == Thread(t);
    }
    if s.cores[0].Owned().Thread? {
      assert s.cores[0].Owned().id in OwnedBy(s, 0);
    }
  }

  /** In every reachable state, schedule on either core picks an ACTIVE thread that no ACTIVE thread
      beats, counting the thread it has just put back; the idle thread only if there is none. */
  lemma SchedulePicksBest(events: seq<Event>, s: Sched, c: nat)
    requires After(Initial(), events) == Some(s) && Enabled(s, Reschedule(c))
    ensures PickedBest(PutBack(s, c), c, Schedule(s, c).cores[c].nextRunPt)
  {
    RunInv(events);
    PutBackBetween(s, c);
    PickInv(PutBack(s, c), c);
  }

  /** In every reachable state, init_scheduler gives a new core the best ACTIVE thread, which the other
      core does not own. */
  lemma LaunchPicksBest(events: seq<Event>, s: Sched, c: nat)
    requires After(Initial(), events) == Some(s) && Enabled(s, LaunchCore(c))
    ensures var first := Launch(s, c).cores[c].runPt;
            PickedBest(s, c, first) && (first.Thread? ==> first != s.cores[1 - c].Owned())
  {
    RunInv(events);
    LaunchInv(s, c);
  }

  /** In every reachable state, handling the alarm wakes the sleeper with the smallest tick, and never
      before that tick. */
  lemma NobodyWakesEarly(events: seq<Event>, s: Sched, compareTime: nat, armTime: nat)
    requires After(Initial(), events) == Some(s) && s.alarm == Fired && s.now <= compareTime <= armTime
    ensures Enabled(s, HandleAlarm(compareTime, armTime)) && s.sleepers != []
    ensures var t := s.sleepers[0].id;
            && s.threads[t].state == SLEEPING && s.threads[t].resumeTick <= s.now
            && Unsleep(s, compareTime, armTime).threads[t].state == ACTIVE
            && (forall u :: u in s.threads && s.threads[u].state == SLEEPING ==> s.threads[t].resumeTick <= s.threads[u].resumeTick)
            && (forall u :: u in s.threads && u != t ==> Unsleep(s, compareTime, armTime).threads[u] == s.threads[u])
  {
    RunInv(events);
    UnsleepInv(s, compareTime, armTime);
    assert Waits(s.sleepers, s.sleepers[0].id);
  }

  /** In every reachable state, a signal wakes the thread of the best priority among those blocked on
      the semaphore, and of those the one that blocked first. */
  lemma SignalWakesFirst(events: seq<Event>, s: Sched, sem: nat, i: nat)
    requires After(Initial(), events) == Some(s) && 0 < i < |s.Blocked(sem)|
    ensures var first, other := s.Blocked(sem)[0], s.Blocked(sem)[i];
            && s.Has(first.id) && s.Has(other.id)
            && Unblock(s, sem).threads[first.id].state == ACTIVE
            && Unblock(s, sem).threads[other.id].state == BLOCKED(sem)
            && (s.threads[first.id].priority < s.threads[other.id].priority
                || (s.threads[first.id].priority == s.threads[other.id].priority && first.since < other.since))
  {
    RunInv(events);
    assert BlockedOk(s, sem, {});
    HeadIsFirst(s.Blocked(sem), i);
  }
}
