/** What every run of the two-core scheduler keeps. */
module SchedSafety {
  import opened Clock
  import opened Options
  import opened WaitQueue
  import opened RingSeq
  import opened SchedModel
  import opened SchedPlacement

  /** The thread a core owns, as a set. */
  function OwnedBy(s: Sched, c: nat): set<Tid>
    requires s.Shape() && c < 2
  {
    match s.cores[c].Owned()
    case Thread(t) => {t}
    case _ => {}
  }

  /** The threads in owners, and no others, are marked RUNNING. */
  ghost predicate RunningAre(s: Sched, owners: set<Tid>)
  {
    && owners <= s.threads.Keys
    && forall t :: t in s.threads ==> (s.threads[t].state == RUNNING <==> t in owners)
  }

  ghost predicate CoreOk(s: Sched, c: nat)
    requires s.Shape() && c < 2
  {
    var core := s.cores[c];
    && (core.pending ==> core.nextRunPt.Thread? || core.nextRunPt == Idle)
    && (!core.pending ==> core.runPt.Thread? || core.runPt == Idle || core.runPt == Unset)
    && (core.runPt == Unset ==> !core.pending)
    && (core.runPt != Unset ==> s.activeCnt[IDLE_PRIORITY] == 1)
  }

  /** While only core c is up, the thread it owns is the last of its ring: the root's predecessor. */
  ghost predicate SoloLast(s: Sched, c: nat)
    requires s.Shape() && c < 2
  {
    s.cores[1 - c].runPt == Unset && s.cores[c].Owned().Thread? ==>
      var t := s.cores[c].Owned().id;
      s.Has(t) && var ring := s.rings[s.threads[t].priority]; ring != [] && ring[|ring| - 1] == t
  }

  /** The alarm is on iff somebody sleeps, is never set before the first sleeper's tick, and has fired
      only once that tick has passed. */
  ghost predicate AlarmOk(s: Sched)
  {
    && (s.alarm == Off <==> s.sleepers == [])
    && (s.sleepers != [] && s.alarm.Armed? ==> s.sleepers[0].key <= s.alarm.at)
    && (s.sleepers != [] && s.alarm == Fired ==> s.sleepers[0].key <= s.now)
  }

  ghost predicate Inv(s: Sched)
  {
    && Placed(s, {}) && AlarmOk(s)
    && CoreOk(s, 0) && CoreOk(s, 1)
    && RunningAre(s, OwnedBy(s, 0) + OwnedBy(s, 1)) && OwnedBy(s, 0) !! OwnedBy(s, 1)
    && SoloLast(s, 0) && SoloLast(s, 1)
  }

  /** Like Inv in the middle of a section of core c, when c owns no thread. */
  ghost predicate Between(s: Sched, c: nat)
  {
    && c < 2 && Placed(s, {}) && AlarmOk(s)
    && CoreOk(s, 1 - c) && s.cores[c].runPt != Unset && !s.cores[c].pending && s.activeCnt[IDLE_PRIORITY] == 1
    && RunningAre(s, OwnedBy(s, 1 - c))
  }

  // ---------------------------------------------------------------- schedule

  lemma PutBackBetween(s: Sched, c: nat)
    requires Inv(s) && c < 2 && s.cores[c].runPt != Unset && !s.cores[c].pending
    ensures Between(PutBack(s, c), c)
    ensures OwnedBy(PutBack(s, c), 1 - c) == OwnedBy(s, 1 - c)
  {
    hide RingOk, BlockedOk, SleepersOk;
    match s.cores[c].runPt
    case Thread(t) =>
      assert t in OwnedBy(s, c);
      RestatePlaced(s, t, ACTIVE);
    case _ =>
  }

  /** An ACTIVE thread of priority p is counted on level p. */
  lemma ActiveIsCounted(s: Sched, t: Tid)
    requires Placed(s, {}) && t in s.threads && s.threads[t].state == ACTIVE
    ensures s.Has(t) && s.activeCnt[s.threads[t].priority] > 0
  {
    var p := s.threads[t].priority;
    assert RingOk(s, p, {});
    CountMember(s.threads, s.rings[p], t);
  }

  /** On the best non-empty level, schedule's choice is an ACTIVE member of the ring: the root, or,
      when the root runs on the other core, its successor. */
  lemma ChoiceIsActive(s: Sched, c: nat, p: nat)
    requires Between(s, c) && p < PRIORITY_LVL_CNT && s.activeCnt[p] != 0
    ensures s.rings[p] != [] && s.rings[p][0] in s.threads
    ensures var t := Choice(s, p); t in s.threads && t in s.rings[p] && s.threads[t].state == ACTIVE && s.threads[t].priority == p
    ensures s.cores[1 - c].runPt == Unset ==> Choice(s, p) == s.rings[p][0] && s.threads[s.rings[p][0]].state == ACTIVE
  {
    var ring := s.rings[p];
    assert RingOk(s, p, {});
    var a := CountWitness(s.threads, ring, ACTIVE);
    var root := ring[0];
    assert root in ring;
    if s.threads[root].state == RUNNING {
      assert root in OwnedBy(s, 1 - c);
      var i :| 0 <= i < |ring| && ring[i] == a;
      assert i > 0 && Rotate(ring)[0] == ring[1];
      assert ring[1] in ring && ring[1] != ring[0];
    }
  }

  /** The level schedule stops at is the best one with an active thread. */
  lemma BestIsBest(s: Sched, p: nat)
    requires Placed(s, {}) && p == BestPriority(s.activeCnt, 0)
    ensures forall t :: t in s.threads && s.threads[t].state == ACTIVE ==> p <= s.threads[t].priority < PRIORITY_LVL_CNT
  {
    forall t | t in s.threads && s.threads[t].state == ACTIVE ensures p <= s.threads[t].priority {
      ActiveIsCounted(s, t);
    }
  }

  lemma PickPlaced(s: Sched, c: nat)
    requires Between(s, c)
    ensures Placed(Pick(s, c), {})
    ensures PickedBest(s, c, Pick(s, c).cores[c].nextRunPt)
  {
    hide RingOk, BlockedOk, SleepersOk;
    var p := BestPriority(s.activeCnt, 0);
    var s' := Pick(s, c);
    BestIsBest(s, p);
    if p == IDLE_PRIORITY {
      PlacedElsewhere(s, s', {});
    } else {
      ChoiceIsActive(s, c, p);
      var t := Choice(s, p);
      var s1 := if s.threads[s.rings[p][0]].state == RUNNING then s else SetRing(s, p, Rotate(s.rings[p]));
      RotatePlaced(s, p);
      RestatePlaced(s1, t, RUNNING);
      PlacedElsewhere(Start(s1, p, t), s', {});
    }
  }

  lemma PickOwners(s: Sched, c: nat)
    requires Between(s, c)
    ensures var s' := Pick(s, c);
            && s'.cores[c].pending && s'.cores[1 - c] == s.cores[1 - c] && CoreOk(s', 0) && CoreOk(s', 1) && AlarmOk(s')
            && RunningAre(s', OwnedBy(s', 0) + OwnedBy(s', 1)) && OwnedBy(s', 0) !! OwnedBy(s', 1)
  {
    hide RingOk, BlockedOk, SleepersOk, Rotate;
    var p := BestPriority(s.activeCnt, 0);
    if p != IDLE_PRIORITY {
      ChoiceIsActive(s, c, p);
      assert OwnedBy(Pick(s, c), c) == {Choice(s, p)};
      assert Choice(s, p) !in OwnedBy(s, 1 - c);
    }
  }

  lemma PickSolo(s: Sched, c: nat)
    requires Between(s, c)
    ensures SoloLast(Pick(s, c), 0) && SoloLast(Pick(s, c), 1)
  {
    hide RingOk, BlockedOk, SleepersOk, RunningAre;
    var p := BestPriority(s.activeCnt, 0);
    if p != IDLE_PRIORITY { ChoiceIsActive(s, c, p); }
  }

  lemma PickInv(s: Sched, c: nat)
    requires Between(s, c)
    ensures Inv(Pick(s, c)) && PickedBest(s, c, Pick(s, c).cores[c].nextRunPt)
    ensures Pick(s, c).cores[c].pending && Pick(s, c).cores[1 - c] == s.cores[1 - c]
  {
    PickPlaced(s, c);
    PickOwners(s, c);
    PickSolo(s, c);
    hide Placed, AlarmOk, CoreOk, RunningAre, SoloLast, PickedBest, Pick;
  }

  /** next is the best choice in s for core c: an ACTIVE thread no ACTIVE thread is better than, or the
      idle thread if there is none. */
  ghost predicate PickedBest(s: Sched, c: nat, next: RunPtr)
  {
    match next
    case Idle => forall t :: t in s.threads ==> s.threads[t].state != ACTIVE
    case Thread(t) =>
      && t in s.threads && s.threads[t].state == ACTIVE
      && forall u :: u in s.threads && s.threads[u].state == ACTIVE ==> s.threads[t].priority <= s.threads[u].priority
    case _ => false
  }

  // ---------------------------------------------------------------- sections that end in schedule

  /** The thread that runs on a core is marked RUNNING. */
  lemma SelfRuns(s: Sched, c: nat)
    requires Inv(s) && SelfCall(s, c)
    ensures s.threads[s.cores[c].runPt.id].state == RUNNING
  {
    assert s.cores[c].runPt.id in OwnedBy(s, c);
  }

  lemma BlockBetween(s: Sched, c: nat, sem: nat)
    requires Inv(s) && SelfCall(s, c)
    ensures Between(BlockSection(s, c, sem), c) && PutBack(BlockSection(s, c, sem), c) == BlockSection(s, c, sem)
  {
    hide RingOk, BlockedOk, SleepersOk;
    var t := s.cores[c].runPt.id;
    SelfRuns(s, c);
    assert t in OwnedBy(s, c);
    DequeuePlaced(s, t);
    BlockOnPlaced(Dequeue(s, t), t, sem);
  }

  lemma SleepBetween(s: Sched, c: nat, ms: nat)
    requires Inv(s) && SelfCall(s, c)
    ensures Between(SleepSection(s, c, ms), c) && PutBack(SleepSection(s, c, ms), c) == SleepSection(s, c, ms)
  {
    hide RingOk, BlockedOk, SleepersOk;
    var t := s.cores[c].runPt.id;
    var tick := TickAfter(s.now, ms);
    SelfRuns(s, c);
    assert t in OwnedBy(s, c);
    DequeuePlaced(s, t);
    SleepOnPlaced(Dequeue(s, t), t, tick);
    InsertAt(s.sleepers, Waiter(t, tick, s.arrivals));
  }

  lemma KillBetween(s: Sched, c: nat)
    requires Inv(s) && SelfCall(s, c)
    ensures Between(KillSection(s, c), c) && PutBack(KillSection(s, c), c) == KillSection(s, c)
  {
    hide RingOk, BlockedOk, SleepersOk;
    var t := s.cores[c].runPt.id;
    SelfRuns(s, c);
    assert t in OwnedBy(s, c);
    DequeuePlaced(s, t);
    var s1 := Dequeue(s, t);
    ForgetPlaced(s1, t);
    PlacedElsewhere(s1.(threads := s1.threads - {t}), KillSection(s, c), {});
  }

  // ---------------------------------------------------------------- other sections

  /** A thread joins the front of its ring: runs and the last place are untouched. */
  lemma EnqueueInv(s: Sched, t: Tid)
    requires Placed(s, {t}) && AlarmOk(s) && CoreOk(s, 0) && CoreOk(s, 1)
    requires t !in OwnedBy(s, 0) + OwnedBy(s, 1) && RunningAreBut(s, OwnedBy(s, 0) + OwnedBy(s, 1), t) && OwnedBy(s, 0) !! OwnedBy(s, 1)
    requires SoloLast(s, 0) && SoloLast(s, 1)
    ensures s.Has(t) && Inv(Enqueue(s, t))
  {
    hide RingOk, BlockedOk, SleepersOk;
    EnqueuePlaced(s, t);
  }

  /** Like RunningAre, with no claim about t. */
  ghost predicate RunningAreBut(s: Sched, owners: set<Tid>, t: Tid)
  {
    && owners <= s.threads.Keys
    && forall u :: u in s.threads && u != t ==> (s.threads[u].state == RUNNING <==> u in owners)
  }

  lemma SignalInv(s: Sched, sem: nat)
    requires Inv(s) && s.Blocked(sem) != []
    ensures s.Has(s.Blocked(sem)[0].id) && Inv(Unblock(s, sem))
  {
    hide RingOk, BlockedOk, SleepersOk;
    PopBlockedPlaced(s, sem);
    EnqueueInv(s.(blocked := s.blocked[sem := s.Blocked(sem)[1..]]), s.Blocked(sem)[0].id);
  }

  /** init_semaphore keeps the invariant iff nobody waits: a thread in the old list would be in none. */
  lemma InitSemaphoreIff(s: Sched, sem: nat)
    requires Inv(s)
    ensures Inv(InitBlocked(s, sem)) <==> s.Blocked(sem) == []
  {
    var s' := InitBlocked(s, sem);
    if s.Blocked(sem) == [] {
      forall p: nat | p < PRIORITY_LVL_CNT ensures RingOk(s', p, {}) { assert RingOk(s, p, {}); }
      forall q: nat ensures BlockedOk(s', q, {}) { assert BlockedOk(s, q, {}) && s'.Blocked(q) == s.Blocked(q); }
    } else {
      var t := s.Blocked(sem)[0].id;
      assert BlockedOk(s, sem, {}) && s'.Blocked(sem) == [];
      assert t in s'.threads && s'.threads[t].state == BLOCKED(sem) && !Waits(s'.Blocked(sem), t);
      assert !BlockedOk(s', sem, {});
    }
  }

  lemma CreateInv(s: Sched, priority: nat)
    requires Inv(s) && priority < PRIORITY_LVL_CNT
    ensures Inv(AddThread(s, priority))
  {
    hide RingOk, BlockedOk, SleepersOk;
    var t := s.lifetime + 1;
    CreatePlaced(s, priority);
    EnqueueInv(s.(threads := s.threads[t := Tcb(priority, ACTIVE, 0)], lifetime := t), t);
  }

  /** unsleep wakes the first sleeper, whose tick has passed, and re-arms no earlier than the next. */
  lemma UnsleepInv(s: Sched, compareTime: nat, armTime: nat)
    requires Inv(s) && s.alarm == Fired && s.now <= compareTime <= armTime
    ensures s.sleepers != [] && s.Has(s.sleepers[0].id) && Inv(Unsleep(s, compareTime, armTime))
    ensures var t := s.sleepers[0].id;
            && s.threads[t].resumeTick <= s.now
            && Unsleep(s, compareTime, armTime).threads[t].state == ACTIVE
            && forall u :: u in s.threads && s.threads[u].state == SLEEPING ==> s.threads[t].resumeTick <= s.threads[u].resumeTick
  {
    var s' := Unsleep(s, compareTime, armTime);
    var mid := s.(sleepers := s.sleepers[1..], alarm := s'.alarm, now := armTime);
    PopSleeperPlaced(s, s'.alarm, armTime);
    assert s.sleepers[1..] != [] ==> Before(s.sleepers[0], s.sleepers[1]);
    EnqueueInv(mid, s.sleepers[0].id);
    forall u | u in s.threads && s.threads[u].state == SLEEPING
      ensures s.sleepers[0].key <= s.threads[u].resumeTick
    {
      assert Waits(s.sleepers, u);
      var i :| 0 <= i < |s.sleepers| && s.sleepers[i].id == u;
      if i > 0 { HeadIsFirst(s.sleepers, i); }
    }
  }

  /** init_scheduler takes the root without looking at its state; the root is never running there. */
  lemma LaunchInv(s: Sched, c: nat)
    requires Inv(s) && c < 2 && s.cores[c].runPt == Unset
    ensures Inv(Launch(s, c))
    ensures var first := Launch(s, c).cores[c].runPt;
            PickedBest(s, c, first) && (first.Thread? ==> first != s.cores[1 - c].Owned())
  {
    LaunchPlaced(s, c);
    LaunchOwners(s, c);
    LaunchSolo(s, c);
    hide Placed, AlarmOk, CoreOk, RunningAre, SoloLast, PickedBest, Launch;
  }

  lemma LaunchOwners(s: Sched, c: nat)
    requires Inv(s) && c < 2 && s.cores[c].runPt == Unset
    ensures var s' := Launch(s, c);
            && CoreOk(s', 0) && CoreOk(s', 1) && AlarmOk(s') && s'.cores[1 - c] == s.cores[1 - c]
            && RunningAre(s', OwnedBy(s', 0) + OwnedBy(s', 1)) && OwnedBy(s', 0) !! OwnedBy(s', 1)
            && (s'.cores[c].runPt.Thread? ==> s'.cores[c].runPt != s.cores[1 - c].Owned())
  {
    hide RingOk, BlockedOk, SleepersOk, Rotate;
    var p := BestPriority(s.activeCnt[IDLE_PRIORITY := 1], 0);
    if p != IDLE_PRIORITY {
      RootNotRunning(s, c, p);
      var t := s.rings[p][0];
      assert OwnedBy(Launch(s, c), c) == {t} && t !in OwnedBy(s, 1 - c);
    }
  }

  lemma LaunchSolo(s: Sched, c: nat)
    requires Inv(s) && c < 2 && s.cores[c].runPt == Unset
    ensures SoloLast(Launch(s, c), 0) && SoloLast(Launch(s, c), 1)
  {
    hide RingOk, BlockedOk, SleepersOk, RunningAre;
    var p := BestPriority(s.activeCnt[IDLE_PRIORITY := 1], 0);
    if p != IDLE_PRIORITY { RootNotRunning(s, c, p); }
  }

  lemma LaunchPlaced(s: Sched, c: nat)
    requires Inv(s) && c < 2 && s.cores[c].runPt == Unset
    ensures Placed(Launch(s, c), {}) && PickedBest(s, c, Launch(s, c).cores[c].runPt)
  {
    hide RingOk, BlockedOk, SleepersOk;
    var s0 := s.(activeCnt := s.activeCnt[IDLE_PRIORITY := 1]);
    var p := BestPriority(s0.activeCnt, 0);
    var s' := Launch(s, c);
    PlacedElsewhere(s, s0, {});
    BestIsBest(s0, p);
    if p == IDLE_PRIORITY {
      PlacedElsewhere(s0, s', {});
    } else {
      RootNotRunning(s, c, p);
      var t := s.rings[p][0];
      RotatePlaced(s0, p);
      RestatePlaced(SetRing(s0, p, Rotate(s.rings[p])), t, RUNNING);
      PlacedElsewhere(Start(SetRing(s0, p, Rotate(s.rings[p])), p, t), s', {});
    }
  }

  /** Before core c is up, a ring root that runs is alone on its ring, so a level with an active thread
      has an active root. */
  lemma RootNotRunning(s: Sched, c: nat, p: nat)
    requires Inv(s) && c < 2 && s.cores[c].runPt == Unset && p < PRIORITY_LVL_CNT && s.activeCnt[p] != 0
    ensures s.rings[p] != [] && s.rings[p][0] in s.threads
    ensures s.threads[s.rings[p][0]].state == ACTIVE && s.threads[s.rings[p][0]].priority == p
  {
    var ring := s.rings[p];
    assert RingOk(s, p, {});
    var a := CountWitness(s.threads, ring, ACTIVE);
    assert ring[0] in ring;
  }

  lemma SwitchInv(s: Sched, c: nat)
    requires Inv(s) && c < 2 && s.cores[c].pending
    ensures Inv(PendSV(s, c))
  {
    hide RingOk, BlockedOk, SleepersOk;
    PlacedElsewhere(s, PendSV(s, c), {});
  }

  // ---------------------------------------------------------------- runs

  lemma InitialInv()
    ensures Inv(Initial())
  {
    var s := Initial();
    forall p: nat | p < PRIORITY_LVL_CNT ensures RingOk(s, p, {}) {}
    forall sem: nat ensures BlockedOk(s, sem, {}) {}
  }

  lemma StepInv(s: Sched, e: Event)
    requires Inv(s) && Enabled(s, e)
    ensures Inv(Step(s, e))
  {
    hide Inv, Placed, Between;
    match e
    case LaunchCore(c) => LaunchInv(s, c);
    case Reschedule(c) =>
      PutBackBetween(s, c);
      PickInv(PutBack(s, c), c);
    case SwitchContext(c) => SwitchInv(s, c);
    case Create(p) => CreateInv(s, p);
    case InitSemaphore(sem) => InitSemaphoreIff(s, sem);
    case BlockSelf(c, sem) =>
      BlockBetween(s, c, sem);
      PickInv(BlockSection(s, c, sem), c);
    case Signal(sem) => SignalInv(s, sem);
    case SleepSelf(c, ms) =>
      SleepBetween(s, c, ms);
      PickInv(SleepSection(s, c, ms), c);
    case KillSelf(c) =>
      KillBetween(s, c);
      PickInv(KillSection(s, c), c);
    case Wait(time) => ClockInv(s, s.(now := s.now + time));
    case AlarmFires => ClockInv(s, s.(alarm := Fired));
    case HandleAlarm(compareTime, armTime) => UnsleepInv(s, compareTime, armTime);
  }

  /** Time passes or an alarm that is due fires. */
  lemma ClockInv(s: Sched, s': Sched)
    requires Inv(s) && s.now <= s'.now
    requires s' == s.(now := s'.now) || (s' == s.(alarm := Fired) && s.alarm.Armed? && s.alarm.at <= s.now)
    ensures Inv(s')
  {
    PlacedElsewhere(s, s', {});
  }

  lemma {:induction false} RunInv(events: seq<Event>)
    ensures var r := After(Initial(), events); r.Some? ==> Inv(r.value)
  {
    if events == [] {
      InitialInv();
    } else {
      var p := After(Initial(), events[..|events| - 1]);
      RunInv(events[..|events| - 1]);
      if p.Some? && Enabled(p.value, events[|events| - 1]) { StepInv(p.value, events[|events| - 1]); }
    }
  }

  lemma AfterAppend(events: seq<Event>, e: Event, s: Sched)
    requires After(Initial(), events) == Some(s) && Enabled(s, e)
    ensures After(Initial(), events + [e]) == Some(Step(s, e))
  {
    assert (events + [e])[..|events + [e]| - 1] == events;
  }
}
