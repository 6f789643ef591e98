/** What each step does to the whole state of the scheduler, told by threads, lists and pointers: the relation
    Effect. In a state of a run, the step function is the one that satisfies it. */
module SchedEffects {
  import opened Clock
  import opened RingSeq
  import opened WaitQueue
  import opened SchedModel
  import opened SchedPlacement
  import opened SchedSafety

  // ---------------------------------------------------------------- the relation

  /** Level p has an active thread, and no better level has. */
  ghost predicate IsBest(threads: map<Tid, Tcb>, p: nat)
  {
    && p < PRIORITY_LVL_CNT
    && (exists t :: t in threads && threads[t].state == ACTIVE && threads[t].priority == p)
    && forall t :: t in threads && threads[t].state == ACTIVE ==> p <= threads[t].priority
  }

  ghost predicate NoneActive(threads: map<Tid, Tcb>)
  {
    forall t :: t in threads ==> threads[t].state != ACTIVE
  }

  /** The root moves to its successor. */
  ghost predicate MovesOn<T(!new)>(ring: seq<T>, ring': seq<T>)
  {
    ring != [] && ring' == ring[1..] + [ring[0]]
  }

  /** t leaves, and the thread after it becomes the root. */
  ghost predicate Leaves<T(!new)>(ring: seq<T>, ring': seq<T>, t: T)
  {
    exists k :: 0 <= k < |ring| && ring[k] == t && ring' == ring[k + 1..] + ring[..k]
  }

  /** w comes after every key up to its own, and before the first larger one. */
  ghost predicate Joins(q: seq<Waiter>, q': seq<Waiter>, w: Waiter)
  {
    exists k :: 0 <= k <= |q| && q' == q[..k] + [w] + q[k..]
      && (forall i :: 0 <= i < k ==> q[i].key <= w.key) && (forall i :: k <= i < |q| ==> w.key < q[i].key)
  }

  /** Everything but threads, rings, counters and cores. */
  ghost predicate SameLists(s: Sched, s': Sched)
  {
    && s'.Shape() && s'.sleepers == s.sleepers && s'.blocked == s.blocked && s'.lifetime == s.lifetime
    && s'.now == s.now && s'.alarm == s.alarm && s'.arrivals == s.arrivals
  }

  /** t is marked as running, having been taken from level p: it is the root, which moves on, or, while the
      root runs on the other core, the thread after it, and the ring stays as it is. */
  ghost predicate TakenFrom(s: Sched, threads: map<Tid, Tcb>, s': Sched, c: nat, p: nat, t: Tid)
    requires s.Shape() && s'.Shape() && c < 2 && p < PRIORITY_LVL_CNT
  {
    && s.rings[p] != [] && t in threads && s'.threads == threads[t := threads[t].(state := RUNNING)]
    && if s.cores[1 - c].Owned() == Thread(s.rings[p][0]) then
         |s.rings[p]| > 1 && t == s.rings[p][1] && s'.rings == s.rings
       else
         t == s.rings[p][0] && MovesOn(s.rings[p], s'.rings[p]) && s'.rings == s.rings[p := s'.rings[p]]
  }

  /** schedule on core c, once its own thread is put back and the threads are as given. */
  ghost predicate Picks(s: Sched, threads: map<Tid, Tcb>, s': Sched, c: nat)
    requires s.Shape() && c < 2
  {
    && SameLists(s, s') && s'.activeCnt[IDLE_PRIORITY] == s.activeCnt[IDLE_PRIORITY] && s'.cores[1 - c] == s.cores[1 - c]
    && s'.cores[c].runPt == s.cores[c].runPt && s'.cores[c].pending
    && (NoneActive(threads) ==> s'.threads == threads && s'.rings == s.rings && s'.cores[c].nextRunPt == Idle)
    && forall p: nat :: IsBest(threads, p) ==>
         s'.cores[c].nextRunPt.Thread? && TakenFrom(s, threads, s', c, p, s'.cores[c].nextRunPt.id)
  }

  /** The threads once core c's own, if it is marked as running, is active again. */
  ghost function PutBackThreads(s: Sched, c: nat): map<Tid, Tcb>
    requires s.Shape() && c < 2
  {
    match s.cores[c].runPt
    case Thread(t) => if t in s.threads && s.threads[t].state == RUNNING then s.threads[t := s.threads[t].(state := ACTIVE)] else s.threads
    case _ => s.threads
  }

  ghost predicate Rescheduled(s: Sched, s': Sched, c: nat)
    requires s.Shape() && c < 2
  {
    Picks(s, PutBackThreads(s, c), s', c)
  }

  /** The rest of a call whose section left the core owning nothing. */
  ghost predicate EndsInSchedule(m: Sched, s': Sched, c: nat)
  {
    Between(m, c) && Rescheduled(m, s', c)
  }

  /** The first thread of a core is the root of the best level, or the idle thread. */
  ghost predicate Launched(s: Sched, s': Sched, c: nat)
    requires s.Shape() && c < 2
  {
    && SameLists(s, s') && s'.activeCnt[IDLE_PRIORITY] == 1 && s'.cores[1 - c] == s.cores[1 - c]
    && s'.cores[c].nextRunPt == s.cores[c].nextRunPt && !s'.cores[c].pending
    && (NoneActive(s.threads) ==> s'.threads == s.threads && s'.rings == s.rings && s'.cores[c].runPt == Idle)
    && forall p: nat :: IsBest(s.threads, p) ==>
         && s.rings[p] != [] && s.rings[p][0] in s.threads && s'.cores[c].runPt == Thread(s.rings[p][0])
         && s'.threads == s.threads[s.rings[p][0] := s.threads[s.rings[p][0]].(state := RUNNING)]
         && MovesOn(s.rings[p], s'.rings[p]) && s'.rings == s.rings[p := s'.rings[p]]
  }

  /** t, as given, is the root of its level, in front of the old ring, and active. */
  ghost predicate Ready(s: Sched, s': Sched, t: Tid, tcb: Tcb)
    requires s.Shape()
  {
    && s'.Shape() && s'.cores == s.cores && s'.arrivals == s.arrivals && s'.activeCnt[IDLE_PRIORITY] == s.activeCnt[IDLE_PRIORITY]
    && tcb.priority < PRIORITY_LVL_CNT && s'.threads == s.threads[t := tcb.(state := ACTIVE)]
    && s'.rings == s.rings[tcb.priority := [t] + s.rings[tcb.priority]]
  }

  /** add_thread: the next id, at the priority asked for. */
  ghost predicate Created(s: Sched, s': Sched, p: nat)
    requires s.Shape()
  {
    && Ready(s, s', s.lifetime + 1, Tcb(p, ACTIVE, 0)) && s'.lifetime == s.lifetime + 1
    && s'.sleepers == s.sleepers && s'.blocked == s.blocked && s'.now == s.now && s'.alarm == s.alarm
  }

  /** sched_unblock: the first waiter. */
  ghost predicate Signalled(s: Sched, s': Sched, sem: nat)
    requires s.Shape() && s.Blocked(sem) != []
  {
    var t := s.Blocked(sem)[0].id;
    && t in s.threads && Ready(s, s', t, s.threads[t]) && s'.blocked == s.blocked[sem := s.Blocked(sem)[1..]]
    && s'.sleepers == s.sleepers && s'.lifetime == s.lifetime && s'.now == s.now && s'.alarm == s.alarm
  }

  /** unsleep: the first sleeper, and the alarm for the next one, ten microseconds away at least. */
  ghost predicate Woken(s: Sched, s': Sched, compareTime: nat, armTime: nat)
    requires s.Shape() && s.sleepers != []
  {
    var t, rest := s.sleepers[0].id, s.sleepers[1..];
    && t in s.threads && Ready(s, s', t, s.threads[t]) && s'.sleepers == rest
    && s'.blocked == s.blocked && s'.lifetime == s.lifetime && s'.now == armTime
    && (rest == [] ==> s'.alarm == Off)
    && (rest != [] && rest[0].key < compareTime + 10 ==> s'.alarm == Armed(armTime + 10))
    && (rest != [] && rest[0].key >= compareTime + 10 ==> s'.alarm == Armed(rest[0].key))
  }

  /** The caller leaves its ring; nothing else about rings, cores, ids and time changes. */
  ghost predicate CallerLeaves(s: Sched, m: Sched, t: Tid)
    requires s.Shape()
  {
    && m.Shape() && t in s.threads && s.threads[t].priority < PRIORITY_LVL_CNT && m.lifetime == s.lifetime && m.now == s.now
    && m.activeCnt[IDLE_PRIORITY] == s.activeCnt[IDLE_PRIORITY]
    && var p := s.threads[t].priority; Leaves(s.rings[p], m.rings[p], t) && m.rings == s.rings[p := m.rings[p]]
  }

  /** sched_block up to its unlock. */
  ghost predicate Blocks(s: Sched, m: Sched, c: nat, sem: nat)
    requires s.Shape() && c < 2 && s.cores[c].runPt.Thread?
  {
    var t := s.cores[c].runPt.id;
    && CallerLeaves(s, m, t) && m.cores == s.cores && m.threads == s.threads[t := s.threads[t].(state := BLOCKED(sem))]
    && Joins(s.Blocked(sem), m.Blocked(sem), Waiter(t, s.threads[t].priority, s.arrivals))
    && m.blocked == s.blocked[sem := m.Blocked(sem)] && m.arrivals == s.arrivals + 1
    && m.sleepers == s.sleepers && m.alarm == s.alarm
  }

  /** sleep up to its unlock: a thread that becomes the first sleeper has the alarm set to its tick. */
  ghost predicate Sleeps(s: Sched, m: Sched, c: nat, ms: nat)
    requires s.Shape() && c < 2 && s.cores[c].runPt.Thread?
  {
    var t, tick := s.cores[c].runPt.id, (s.now + ms * 1000) % TICK_LIMIT;
    && CallerLeaves(s, m, t) && m.cores == s.cores && m.threads == s.threads[t := s.threads[t].(state := SLEEPING, resumeTick := tick)]
    && Joins(s.sleepers, m.sleepers, Waiter(t, tick, s.arrivals)) && m.arrivals == s.arrivals + 1
    && m.alarm == (if m.sleepers != [] && m.sleepers[0].id == t && s.alarm != Fired then Armed(tick) else s.alarm)
    && m.blocked == s.blocked
  }

  /** kill up to its schedule. */
  ghost predicate Dies(s: Sched, m: Sched, c: nat)
    requires s.Shape() && c < 2 && s.cores[c].runPt.Thread?
  {
    var t := s.cores[c].runPt.id;
    && CallerLeaves(s, m, t) && m.threads == s.threads - {t}
    && m.cores[1 - c] == s.cores[1 - c] && m.cores[c] == s.cores[c].(runPt := BlackHole)
    && m.sleepers == s.sleepers && m.blocked == s.blocked && m.alarm == s.alarm && m.arrivals == s.arrivals
  }

  /** What an enabled event makes of s. A call that gives up the core ends in schedule. */
  ghost predicate Effect(s: Sched, e: Event, s': Sched)
    requires Enabled(s, e)
  {
    match e
    case LaunchCore(c) => Launched(s, s', c)
    case Reschedule(c) => Rescheduled(s, s', c)
    case SwitchContext(c) =>
      s'.Shape() && s' == s.(cores := s'.cores) && s'.cores[1 - c] == s.cores[1 - c]
      && s'.cores[c].runPt == s'.cores[c].nextRunPt == s.cores[c].nextRunPt && !s'.cores[c].pending
    case Create(p) => Created(s, s', p)
    case InitSemaphore(sem) => s' == s.(blocked := s'.blocked) && s'.blocked == s.blocked[sem := []]
    case BlockSelf(c, sem) => exists m :: Blocks(s, m, c, sem) && EndsInSchedule(m, s', c)
    case Signal(sem) => Signalled(s, s', sem)
    case SleepSelf(c, ms) => exists m :: Sleeps(s, m, c, ms) && EndsInSchedule(m, s', c)
    case KillSelf(c) => exists m :: Dies(s, m, c) && EndsInSchedule(m, s', c)
    case Wait(time) => s' == s.(now := s.now + time)
    case AlarmFires => s' == s.(alarm := Fired)
    case HandleAlarm(compareTime, armTime) => s.sleepers != [] && Woken(s, s', compareTime, armTime)
  }

  // ---------------------------------------------------------------- the step has it

  lemma BestPriorityIs(s: Sched, p: nat)
    requires Placed(s, {}) && p == BestPriority(s.activeCnt, 0)
    ensures p == IDLE_PRIORITY ==> NoneActive(s.threads)
    ensures p < IDLE_PRIORITY ==> !NoneActive(s.threads) && s.rings[p] != [] && IsBest(s.threads, p)
    ensures forall q: nat :: IsBest(s.threads, q) ==> q == p && q < IDLE_PRIORITY
  {
    BestIsBest(s, p);
    if p < IDLE_PRIORITY {
      assert RingOk(s, p, {});
      var a := CountWitness(s.threads, s.rings[p], ACTIVE);
      assert a in s.threads && s.threads[a].state == ACTIVE && s.threads[a].priority == p;
    }
  }

  lemma PickHasEffect(s: Sched, c: nat)
    requires Between(s, c)
    ensures Picks(s, s.threads, Pick(s, c), c)
  {
    hide Between, Placed, IsBest, NoneActive;
    BetweenFacts(s, c);
    var p, s' := BestPriority(s.activeCnt, 0), Pick(s, c);
    BestPriorityIs(s, p);
    if p != IDLE_PRIORITY {
      ChoiceIsActive(s, c, p);
      RootRunsElsewhere(s, c, p);
      var t := Choice(s, p);
      assert TakenFrom(s, s.threads, s', c, p, t);
    }
  }

  lemma BetweenFacts(s: Sched, c: nat)
    requires Between(s, c)
    ensures Placed(s, {}) && s.Shape() && c < 2
  {
  }

  /** In the middle of core c's section a root that runs is the other core's. */
  lemma RootRunsElsewhere(s: Sched, c: nat, p: nat)
    requires Between(s, c) && p < PRIORITY_LVL_CNT && s.activeCnt[p] != 0
    ensures s.rings[p] != [] && s.rings[p][0] in s.threads
    ensures s.threads[s.rings[p][0]].state == RUNNING <==> s.cores[1 - c].Owned() == Thread(s.rings[p][0])
    ensures s.threads[s.rings[p][0]].state == RUNNING ==> |s.rings[p]| > 1
  {
    ChoiceIsActive(s, c, p);
    assert s.rings[p][0] in OwnedBy(s, 1 - c) <==> s.cores[1 - c].Owned() == Thread(s.rings[p][0]);
    if |s.rings[p]| == 1 { assert Choice(s, p) == s.rings[p][0]; }
  }

  /** schedule from a state in which core c's thread, once put back, leaves the core owning nothing. */
  lemma ScheduleHasEffect(s: Sched, c: nat)
    requires s.Shape() && c < 2 && Between(PutBack(s, c), c)
    ensures Rescheduled(s, Schedule(s, c), c)
  {
    hide Between, Pick, IsBest, NoneActive;
    PickHasEffect(PutBack(s, c), c);
    PutBackIs(s, c);
    assert TakenAlike(s, PutBack(s, c));
  }

  ghost predicate TakenAlike(s: Sched, r: Sched)
  {
    s.Shape() && r.Shape() && r.rings == s.rings && r.cores == s.cores && SameLists(s, r) && r.activeCnt[IDLE_PRIORITY] == s.activeCnt[IDLE_PRIORITY]
  }

  lemma PutBackIs(s: Sched, c: nat)
    requires s.Shape() && c < 2 && Between(PutBack(s, c), c)
    ensures PutBack(s, c).threads == PutBackThreads(s, c) && TakenAlike(s, PutBack(s, c))
  {
  }

  lemma EndsWell(m: Sched, c: nat)
    requires Between(m, c) && PutBack(m, c) == m
    ensures m.Shape() && EndsInSchedule(m, Schedule(m, c), c)
  {
    ScheduleHasEffect(m, c);
    hide Rescheduled;
  }

  lemma LaunchHasEffect(s: Sched, c: nat)
    requires Inv(s) && Enabled(s, LaunchCore(c))
    ensures Launched(s, Launch(s, c), c)
  {
    hide Inv, Placed, IsBest, NoneActive;
    var s0 := s.(activeCnt := s.activeCnt[IDLE_PRIORITY := 1]);
    var p := BestPriority(s0.activeCnt, 0);
    assert Placed(s0, {}) by { InvParts(s); PlacedElsewhere(s, s0, {}); }
    BestPriorityIs(s0, p);
    if p != IDLE_PRIORITY { RootNotRunning(s, c, p); }
  }

  lemma InvParts(s: Sched)
    requires Inv(s)
    ensures Placed(s, {}) && s.Shape()
  {
  }

  lemma EnqueueHasEffect(s: Sched, t: Tid)
    requires s.Shape() && s.Has(t)
    ensures Ready(s, Enqueue(s, t), t, s.threads[t])
  {
  }

  lemma CreateHasEffect(s: Sched, p: nat)
    requires Inv(s) && p < PRIORITY_LVL_CNT
    ensures s.Shape() && Created(s, AddThread(s, p), p)
  {
    var t := s.lifetime + 1;
    EnqueueHasEffect(s.(threads := s.threads[t := Tcb(p, ACTIVE, 0)], lifetime := t), t);
    hide Inv, Enqueue;
    assert AddThread(s, p).threads == s.threads[t := Tcb(p, ACTIVE, 0)];
  }

  lemma DequeueHasEffect(s: Sched, t: Tid)
    requires Placed(s, {}) && t in s.threads && s.threads[t].state == RUNNING
    ensures s.Has(t) && CallerLeaves(s, Dequeue(s, t), t)
  {
    var p := s.threads[t].priority;
    assert RingOk(s, p, {});
    CountMember(s.threads, s.rings[p], t);
    CountAll(s.threads, s.rings[p]);
    var k := IndexOf(s.rings[p], t);
    assert s.rings[p][k] == t;
    if s.activeCnt[p] == 0 && s.runningCnt[p] == 1 { assert s.rings[p][k + 1..] + s.rings[p][..k] == []; }
  }

  lemma InsertJoins(q: seq<Waiter>, w: Waiter)
    requires Sorted(q)
    ensures Joins(q, Insert(q, w), w)
  {
    InsertAt(q, w);
    var k := Position(q, w);
    forall i | k <= i < |q| ensures w.key < q[i].key { if i > k { assert Before(q[k], q[i]); } }
  }

  lemma BlockHasEffect(s: Sched, c: nat, sem: nat)
    requires Inv(s) && SelfCall(s, c)
    ensures s.Shape() && Blocks(s, BlockSection(s, c, sem), c, sem)
  {
    hide Placed, CallerLeaves, Dequeue, Insert, Joins, RunningAre, SoloLast, AlarmOk;
    var t := s.cores[c].runPt.id;
    InvParts(s);
    SelfRuns(s, c);
    DequeueHasEffect(s, t);
    DequeueRest(s, t);
    assert Sorted(s.Blocked(sem)) by { InvParts(s); BlockedSorted(s, sem); }
    InsertJoins(s.Blocked(sem), Waiter(t, s.threads[t].priority, s.arrivals));
    LeavesAlike(s, Dequeue(s, t), BlockSection(s, c, sem), t);
  }

  lemma BlockedSorted(s: Sched, sem: nat)
    requires Placed(s, {})
    ensures Sorted(s.Blocked(sem))
  {
    assert BlockedOk(s, sem, {});
  }

  lemma DequeueRest(s: Sched, t: Tid)
    requires s.Shape() && s.Has(t)
    ensures var m := Dequeue(s, t); m == s.(rings := m.rings, runningCnt := m.runningCnt)
  {
  }

  lemma LeavesAlike(s: Sched, m: Sched, m': Sched, t: Tid)
    requires s.Shape() && CallerLeaves(s, m, t) && m'.Shape() && m'.rings == m.rings && m'.activeCnt == m.activeCnt
    requires m'.lifetime == m.lifetime && m'.now == m.now
    ensures CallerLeaves(s, m', t)
  {
  }

  lemma SleepHasEffect(s: Sched, c: nat, ms: nat)
    requires Inv(s) && SelfCall(s, c)
    ensures s.Shape() && Sleeps(s, SleepSection(s, c, ms), c, ms)
  {
    hide Placed, CallerLeaves, Dequeue, Insert, Joins, RunningAre, SoloLast, TickAfter;
    var t, tick := s.cores[c].runPt.id, TickAfter(s.now, ms);
    InvParts(s);
    SelfRuns(s, c);
    TickIs(s.now, ms);
    DequeueHasEffect(s, t);
    DequeueRest(s, t);
    var w, m := Waiter(t, tick, s.arrivals), SleepSection(s, c, ms);
    InvParts(s);
    SleepersSorted(s, t);
    InsertJoins(s.sleepers, w);
    InsertHead(s.sleepers, w);
    LeavesAlike(s, Dequeue(s, t), m, t);
  }

  lemma SleepersSorted(s: Sched, t: Tid)
    requires Placed(s, {}) && t in s.threads && s.threads[t].state == RUNNING
    ensures Sorted(s.sleepers) && forall i :: 0 <= i < |s.sleepers| ==> s.sleepers[i].id != t
  {
    assert SleepersOk(s, {});
  }

  /** The waiter is the head iff the list was empty or its key is smaller than the head's. */
  lemma InsertHead(q: seq<Waiter>, w: Waiter)
    requires forall i :: 0 <= i < |q| ==> q[i].id != w.id
    ensures Insert(q, w) != [] && (Insert(q, w)[0].id == w.id <==> q == [] || w.key < q[0].key)
  {
  }

  lemma KillHasEffect(s: Sched, c: nat)
    requires Inv(s) && SelfCall(s, c)
    ensures s.Shape() && Dies(s, KillSection(s, c), c)
  {
    hide Placed, CallerLeaves, Dequeue, RunningAre, SoloLast, AlarmOk;
    var t := s.cores[c].runPt.id;
    InvParts(s);
    SelfRuns(s, c);
    DequeueHasEffect(s, t);
    DequeueRest(s, t);
    LeavesAlike(s, Dequeue(s, t), KillSection(s, c), t);
  }

  lemma SignalHasEffect(s: Sched, sem: nat)
    requires Inv(s) && Enabled(s, Signal(sem))
    ensures Signalled(s, Unblock(s, sem), sem)
  {
    EnqueueHasEffect(s.(blocked := s.blocked[sem := s.Blocked(sem)[1..]]), s.Blocked(sem)[0].id);
    hide Inv, Enqueue;
  }

  lemma UnsleepHasEffect(s: Sched, compareTime: nat, armTime: nat)
    requires Inv(s) && Enabled(s, HandleAlarm(compareTime, armTime))
    ensures s.sleepers != [] && Woken(s, Unsleep(s, compareTime, armTime), compareTime, armTime)
  {
    UnsleepInv(s, compareTime, armTime);
    var s' := Unsleep(s, compareTime, armTime);
    EnqueueHasEffect(s.(sleepers := s.sleepers[1..], alarm := s'.alarm, now := armTime), s.sleepers[0].id);
    hide Inv, Enqueue;
  }

  /** A step from a state of a run has its effect. */
  lemma StepHasEffect(s: Sched, e: Event)
    requires Inv(s) && Enabled(s, e)
    ensures Effect(s, e, Step(s, e))
  {
    hide Inv, Between, Launched, Rescheduled, Created, Signalled, Woken, Blocks, Sleeps, Dies;
    hide Launch, Schedule, AddThread, Unblock, Unsleep, BlockSection, SleepSection, KillSection;
    match e
    case LaunchCore(c) => LaunchHasEffect(s, c);
    case Reschedule(c) =>
      PutBackBetween(s, c);
      ScheduleHasEffect(s, c);
    case Create(p) => CreateHasEffect(s, p);
    case BlockSelf(c, sem) =>
      BlockBetween(s, c, sem);
      BlockHasEffect(s, c, sem);
      EndsWell(BlockSection(s, c, sem), c);
    case Signal(sem) => SignalHasEffect(s, sem);
    case SleepSelf(c, ms) =>
      SleepBetween(s, c, ms);
      SleepHasEffect(s, c, ms);
      EndsWell(SleepSection(s, c, ms), c);
    case KillSelf(c) =>
      KillBetween(s, c);
      KillHasEffect(s, c);
      EndsWell(KillSection(s, c), c);
    case HandleAlarm(compareTime, armTime) => UnsleepHasEffect(s, compareTime, armTime);
    case _ =>
  }

  // ---------------------------------------------------------------- nothing else has it

  /** Threads and rings determine the counters. */
  lemma CountersSame(a: Sched, b: Sched)
    requires Placed(a, {}) && Placed(b, {}) && a.threads == b.threads && a.rings == b.rings
    requires a.activeCnt[IDLE_PRIORITY] == b.activeCnt[IDLE_PRIORITY]
    ensures a.activeCnt == b.activeCnt && a.runningCnt == b.runningCnt
  {
    forall p: nat | p < PRIORITY_LVL_CNT ensures a.activeCnt[p] == b.activeCnt[p] && a.runningCnt[p] == b.runningCnt[p] {
      assert RingOk(a, p, {}) && RingOk(b, p, {});
    }
  }

  /** All that CountersSame leaves. */
  ghost predicate SameRest(a: Sched, b: Sched)
  {
    && a.Shape() && b.Shape() && a.threads == b.threads && a.rings == b.rings && a.cores == b.cores && SameLists(a, b)
    && a.activeCnt[IDLE_PRIORITY] == b.activeCnt[IDLE_PRIORITY]
  }

  lemma RestIsAll(a: Sched, b: Sched)
    requires Placed(a, {}) && Placed(b, {}) && SameRest(a, b)
    ensures a == b
  {
    CountersSame(a, b);
  }

  lemma CoresSame(a: Sched, b: Sched, c: nat)
    requires a.Shape() && b.Shape() && c < 2 && a.cores[c] == b.cores[c] && a.cores[1 - c] == b.cores[1 - c]
    ensures a.cores == b.cores
  {
  }

  lemma PicksDetermines(s: Sched, threads: map<Tid, Tcb>, a: Sched, b: Sched, c: nat)
    requires s.Shape() && c < 2 && Picks(s, threads, a, c) && Picks(s, threads, b, c)
    requires NoneActive(threads) || exists p: nat :: IsBest(threads, p)
    ensures SameRest(a, b)
  {
    hide IsBest, NoneActive;
    if !NoneActive(threads) {
      var p: nat :| IsBest(threads, p);
      BestInRange(threads, p);
      assert TakenFrom(s, threads, a, c, p, a.cores[c].nextRunPt.id) && TakenFrom(s, threads, b, c, p, b.cores[c].nextRunPt.id);
    }
    CoresSame(a, b, c);
  }

  lemma BestInRange(threads: map<Tid, Tcb>, p: nat)
    requires IsBest(threads, p)
    ensures p < PRIORITY_LVL_CNT && !NoneActive(threads)
  {
  }

  lemma SomeBest(s: Sched)
    requires Placed(s, {})
    ensures NoneActive(s.threads) || exists p: nat :: IsBest(s.threads, p)
  {
    hide Placed, IsBest, NoneActive;
    ShapeOf(s);
    BestPriorityIs(s, BestPriority(s.activeCnt, 0));
  }

  lemma ShapeOf(s: Sched)
    requires Placed(s, {})
    ensures s.Shape()
  {
  }

  lemma RescheduledDetermines(s: Sched, a: Sched, b: Sched, c: nat)
    requires s.Shape() && c < 2 && Between(PutBack(s, c), c) && Rescheduled(s, a, c) && Rescheduled(s, b, c)
    ensures SameRest(a, b)
  {
    hide Between, Placed, Picks, PutBackThreads, PutBack, IsBest, NoneActive, SameRest;
    PutBackIs(s, c);
    BetweenFacts(PutBack(s, c), c);
    SomeBest(PutBack(s, c));
    PicksDetermines(s, PutBackThreads(s, c), a, b, c);
  }

  lemma LaunchedDetermines(s: Sched, a: Sched, b: Sched, c: nat)
    requires Inv(s) && s.Shape() && c < 2 && Launched(s, a, c) && Launched(s, b, c)
    ensures SameRest(a, b)
  {
    InvParts(s);
    SomeBest(s);
    hide Inv, IsBest, NoneActive;
    if !NoneActive(s.threads) {
      var p: nat :| IsBest(s.threads, p);
      BestInRange(s.threads, p);
    }
    CoresSame(a, b, c);
  }

  lemma LeavesOnce<T(!new)>(ring: seq<T>, a: seq<T>, b: seq<T>, t: T)
    requires NoRepeats(ring) && Leaves(ring, a, t) && Leaves(ring, b, t)
    ensures a == b
  {
  }

  lemma JoinIsInsert(q: seq<Waiter>, q': seq<Waiter>, w: Waiter)
    requires Joins(q, q', w)
    ensures q' == Insert(q, w)
  {
    var k :| 0 <= k <= |q| && q' == q[..k] + [w] + q[k..]
      && (forall i :: 0 <= i < k ==> q[i].key <= w.key) && (forall i :: k <= i < |q| ==> w.key < q[i].key);
    InsertIs(q, w, k);
  }

  lemma LeavesDetermines(s: Sched, a: Sched, b: Sched, t: Tid)
    requires Placed(s, {}) && CallerLeaves(s, a, t) && CallerLeaves(s, b, t)
    ensures a.rings == b.rings
  {
    var p := s.threads[t].priority;
    assert RingOk(s, p, {});
    LeavesOnce(s.rings[p], a.rings[p], b.rings[p], t);
  }

  lemma BlocksDetermines(s: Sched, a: Sched, b: Sched, c: nat, sem: nat)
    requires Placed(s, {}) && c < 2 && s.cores[c].runPt.Thread? && Blocks(s, a, c, sem) && Blocks(s, b, c, sem)
    ensures SameRest(a, b)
  {
    hide Placed, Joins, Leaves;
    ShapeOf(s);
    LeavesDetermines(s, a, b, s.cores[c].runPt.id);
    var w := Waiter(s.cores[c].runPt.id, s.threads[s.cores[c].runPt.id].priority, s.arrivals);
    JoinIsInsert(s.Blocked(sem), a.Blocked(sem), w);
    JoinIsInsert(s.Blocked(sem), b.Blocked(sem), w);
  }

  lemma SleepsDetermines(s: Sched, a: Sched, b: Sched, c: nat, ms: nat)
    requires Placed(s, {}) && c < 2 && s.cores[c].runPt.Thread? && Sleeps(s, a, c, ms) && Sleeps(s, b, c, ms)
    ensures SameRest(a, b)
  {
    hide Placed, Joins, Leaves;
    ShapeOf(s);
    LeavesDetermines(s, a, b, s.cores[c].runPt.id);
    var w := Waiter(s.cores[c].runPt.id, (s.now + ms * 1000) % TICK_LIMIT, s.arrivals);
    JoinIsInsert(s.sleepers, a.sleepers, w);
    JoinIsInsert(s.sleepers, b.sleepers, w);
  }

  lemma DiesDetermines(s: Sched, a: Sched, b: Sched, c: nat)
    requires Placed(s, {}) && c < 2 && s.cores[c].runPt.Thread? && Dies(s, a, c) && Dies(s, b, c)
    ensures SameRest(a, b)
  {
    hide Placed, Leaves;
    ShapeOf(s);
    LeavesDetermines(s, a, b, s.cores[c].runPt.id);
    CoresSame(a, b, c);
  }

  /** A call's section, and then schedule. */
  lemma SectionDetermines(m: Sched, n: Sched, a: Sched, b: Sched, c: nat)
    requires EndsInSchedule(m, a, c) && EndsInSchedule(n, b, c) && SameRest(m, n) && n.Shape() && c < 2 && PutBack(n, c) == n
    ensures SameRest(a, b)
  {
    hide Between, SameRest, Rescheduled;
    BetweenFacts(m, c);
    BetweenFacts(n, c);
    RestIsAll(m, n);
    RescheduledDetermines(n, a, b, c);
  }

  lemma EffectDetermines(s: Sched, e: Event, s': Sched)
    requires Inv(s) && Enabled(s, e) && Effect(s, e, s')
    ensures SameRest(Step(s, e), s')
  {
    hide Inv, Between, Placed, Launched, Rescheduled, EndsInSchedule, Blocks, Sleeps, Dies;
    hide Launch, Schedule, AddThread, Unblock, Unsleep, BlockSection, SleepSection, KillSection;
    InvParts(s);
    StepHasEffect(s, e);
    match e
    case LaunchCore(c) => LaunchedDetermines(s, Step(s, e), s', c);
    case Reschedule(c) =>
      PutBackBetween(s, c);
      RescheduledDetermines(s, Step(s, e), s', c);
    case SwitchContext(c) => CoresSame(Step(s, e), s', c);
    case BlockSelf(c, sem) =>
      var m :| Blocks(s, m, c, sem) && EndsInSchedule(m, s', c);
      var n := BlockSection(s, c, sem);
      BlockBetween(s, c, sem);
      BlockHasEffect(s, c, sem);
      EndsWell(n, c);
      BlocksDetermines(s, m, n, c, sem);
      SectionDetermines(m, n, s', Step(s, e), c);
    case SleepSelf(c, ms) =>
      var m :| Sleeps(s, m, c, ms) && EndsInSchedule(m, s', c);
      var n := SleepSection(s, c, ms);
      SleepBetween(s, c, ms);
      SleepHasEffect(s, c, ms);
      EndsWell(n, c);
      SleepsDetermines(s, m, n, c, ms);
      SectionDetermines(m, n, s', Step(s, e), c);
    case KillSelf(c) =>
      var m :| Dies(s, m, c) && EndsInSchedule(m, s', c);
      var n := KillSection(s, c);
      KillBetween(s, c);
      KillHasEffect(s, c);
      EndsWell(n, c);
      DiesDetermines(s, m, n, c);
      SectionDetermines(m, n, s', Step(s, e), c);
    case _ =>
  }

  /** Between states of runs, the effect of an event says all there is to say: it is the step. */
  lemma StepIff(s: Sched, e: Event, s': Sched)
    requires Inv(s) && Enabled(s, e) && Inv(s')
    ensures s' == Step(s, e) <==> Effect(s, e, s')
  {
    hide Inv, Placed, Effect, Step, Enabled, SameRest;
    StepHasEffect(s, e);
    if Effect(s, e, s') {
      StepInv(s, e);
      InvParts(Step(s, e));
      InvParts(s');
      EffectDetermines(s, e, s');
      RestIsAll(Step(s, e), s');
    }
  }
}
