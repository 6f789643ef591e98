/** A sleeping thread sleeps for as long as it asked to: from its call of sleep, over any run, to the step
    that wakes it. */
module SchedSleep {
  import opened Clock
  import opened Options
  import opened RingSeq
  import opened WaitQueue
  import opened SchedModel
  import opened SchedPlacement
  import opened SchedSafety

  predicate Waiting(st: ThreadState) { st == SLEEPING || st.BLOCKED? }

  /** The step that wakes t: the handler of the alarm, or a signal, with t at the head of its list. */
  predicate Wakes(s: Sched, e: Event, t: Tid)
  {
    match e
    case HandleAlarm(_, _) => s.sleepers != [] && s.sleepers[0].id == t
    case Signal(sem) => s.Blocked(sem) != [] && s.Blocked(sem)[0].id == t
    case _ => false
  }

  lemma PickKeepsWaiting(s: Sched, c: nat, t: Tid)
    requires Between(s, c) && t in s.threads && Waiting(s.threads[t].state)
    ensures var s' := Pick(s, c); t in s'.threads && s'.threads[t] == s.threads[t]
  {
    hide RingOk, BlockedOk, SleepersOk;
    var p := BestPriority(s.activeCnt, 0);
    if p != IDLE_PRIORITY { ChoiceIsActive(s, c, p); }
  }

  /** No step touches a waiting thread but the one that wakes it. */
  lemma OnlyWokenMoves(s: Sched, e: Event, t: Tid)
    requires Inv(s) && Enabled(s, e) && t in s.threads && Waiting(s.threads[t].state) && !Wakes(s, e, t)
    ensures t in Step(s, e).threads && Step(s, e).threads[t] == s.threads[t]
  {
    hide RingOk, BlockedOk, SleepersOk, AlarmOk, CoreOk, SoloLast, RunningAre, BestPriority, Rotate, Insert, Removed;
    match e
    case LaunchCore(c) =>
      var p := BestPriority(s.activeCnt[IDLE_PRIORITY := 1], 0);
      if p != IDLE_PRIORITY { RootNotRunning(s, c, p); }
    case Reschedule(c) =>
      PutBackBetween(s, c);
      PickKeepsWaiting(PutBack(s, c), c, t);
    case BlockSelf(_, _) => CallKeepsWaiting(s, e, t);
    case SleepSelf(_, _) => CallKeepsWaiting(s, e, t);
    case KillSelf(_) => CallKeepsWaiting(s, e, t);
    case _ =>
  }

  /** Nor does a call of the thread that runs. */
  lemma CallKeepsWaiting(s: Sched, e: Event, t: Tid)
    requires Inv(s) && Enabled(s, e) && t in s.threads && Waiting(s.threads[t].state)
    requires e.BlockSelf? || e.SleepSelf? || e.KillSelf?
    ensures t in Step(s, e).threads && Step(s, e).threads[t] == s.threads[t]
  {
    hide Inv, Between, Pick, Insert, Removed;
    SelfRuns(s, e.core);
    match e
    case BlockSelf(c, sem) =>
      BlockBetween(s, c, sem);
      PickKeepsWaiting(BlockSection(s, c, sem), c, t);
    case SleepSelf(c, ms) =>
      SleepBetween(s, c, ms);
      PickKeepsWaiting(SleepSection(s, c, ms), c, t);
    case KillSelf(c) =>
      KillBetween(s, c);
      PickKeepsWaiting(KillSection(s, c), c, t);
  }

  /** t waits in every state of a run from s. */
  ghost predicate WaitsThrough(s: Sched, events: seq<Event>, t: Tid)
  {
    var r := After(s, events);
    && r.Some? && t in r.value.threads && Waiting(r.value.threads[t].state)
    && (events != [] ==> WaitsThrough(s, events[..|events| - 1], t))
  }

  /** A wake-up makes its thread ACTIVE, so a thread that waits through a run keeps what it waits for. */
  lemma {:induction false} WaitKept(s: Sched, events: seq<Event>, t: Tid)
    requires Inv(s) && WaitsThrough(s, events, t)
    ensures var s' := After(s, events).value; Inv(s') && t in s.threads && s'.threads[t] == s.threads[t]
  {
    if events != [] {
      hide Inv, Step, Wakes;
      var p, e := After(s, events[..|events| - 1]).value, events[|events| - 1];
      WaitKept(s, events[..|events| - 1], t);
      StepInv(p, e);
      if Wakes(p, e, t) { WokenIsActive(p, e, t); } else { OnlyWokenMoves(p, e, t); }
    }
  }

  lemma WokenIsActive(s: Sched, e: Event, t: Tid)
    requires Inv(s) && Enabled(s, e) && Wakes(s, e, t)
    ensures t in Step(s, e).threads && Step(s, e).threads[t].state == ACTIVE
  {
  }

  /** From the call of sleep(ms) to the step that wakes the thread, which is the handler of the alarm, the clock
      reaches the tick that sleep computed; if that fits in 32 bits, at least ms milliseconds pass. */
  lemma SleepsLongEnough(before: seq<Event>, s: Sched, c: nat, ms: nat, during: seq<Event>, e: Event)
    requires After(Initial(), before) == Some(s) && Enabled(s, SleepSelf(c, ms))
    requires WaitsThrough(Step(s, SleepSelf(c, ms)), during, s.cores[c].runPt.id)
    requires var w := After(Step(s, SleepSelf(c, ms)), during).value;
             Enabled(w, e) && var t := s.cores[c].runPt.id; !(t in Step(w, e).threads && Waiting(Step(w, e).threads[t].state))
    ensures var w, t := After(Step(s, SleepSelf(c, ms)), during).value, s.cores[c].runPt.id;
            && e.HandleAlarm? && t in Step(w, e).threads && Step(w, e).threads[t].state == ACTIVE
            && w.now >= TickAfter(s.now, ms)
            && (s.now + ms * 1000 < TICK_LIMIT ==> w.now >= s.now + ms * 1000)
  {
    var t, s1 := s.cores[c].runPt.id, Step(s, SleepSelf(c, ms));
    RunInv(before);
    StepInv(s, SleepSelf(c, ms));
    if s.now < TICK_LIMIT { TickAfterIff(s.now, ms); }
    SleepStarts(s, c, ms);
    WaitKept(s1, during, t);
    var w := After(s1, during).value;
    WakeIsDue(w, e, t);
  }

  /** sleep sets its thread's tick. */
  lemma SleepStarts(s: Sched, c: nat, ms: nat)
    requires Inv(s) && Enabled(s, SleepSelf(c, ms))
    ensures var t, s' := s.cores[c].runPt.id, Step(s, SleepSelf(c, ms));
            t in s'.threads && s'.threads[t].state == SLEEPING && s'.threads[t].resumeTick == TickAfter(s.now, ms)
  {
    hide RingOk, BlockedOk, SleepersOk, AlarmOk, CoreOk, SoloLast, RunningAre, Pick, PutBack, Insert, Removed, TickAfter;
    SleepBetween(s, c, ms);
    PickKeepsWaiting(SleepSection(s, c, ms), c, s.cores[c].runPt.id);
  }

  lemma SignalHead(s: Sched)
    requires Inv(s)
    ensures forall sem: nat :: s.Blocked(sem) != [] ==>
              s.Blocked(sem)[0].id in s.threads && s.threads[s.Blocked(sem)[0].id].state == BLOCKED(sem)
  {
    forall sem: nat | s.Blocked(sem) != []
      ensures s.Blocked(sem)[0].id in s.threads && s.threads[s.Blocked(sem)[0].id].state == BLOCKED(sem)
    {
      assert BlockedOk(s, sem, {});
    }
  }

  /** A sleeper stops waiting only by the alarm's handler, once its tick has passed. */
  lemma WakeIsDue(s: Sched, e: Event, t: Tid)
    requires Inv(s) && Enabled(s, e) && t in s.threads && s.threads[t].state == SLEEPING
    requires !(t in Step(s, e).threads && Waiting(Step(s, e).threads[t].state))
    ensures e.HandleAlarm? && s.threads[t].resumeTick <= s.now
    ensures t in Step(s, e).threads && Step(s, e).threads[t].state == ACTIVE
  {
    hide Step;
    if !Wakes(s, e, t) { OnlyWokenMoves(s, e, t); }
    WokenIsActive(s, e, t);
    SignalHead(s);
    if e.HandleAlarm? { UnsleepInv(s, e.compareTime, e.armTime); }
  }

  // ---------------------------------------------------------------- nobody sleeps on

  /** The alarm is not set for later than the first sleeper's tick, or than ten microseconds from now. */
  ghost predicate AlarmInTime(s: Sched)
  {
    s.sleepers != [] && s.alarm.Armed? ==> s.alarm.at <= s.sleepers[0].key || s.alarm.at <= s.now + 10
  }

  lemma StepInTime(s: Sched, e: Event)
    requires Inv(s) && Enabled(s, e) && AlarmInTime(s)
    ensures AlarmInTime(Step(s, e))
  {
    hide RingOk, BlockedOk, CoreOk, SoloLast, RunningAre, BestPriority, Rotate, Removed, Between;
    match e
    case SleepSelf(c, ms) =>
      SleepBetween(s, c, ms);
      ScheduleKeepsAlarm(SleepSection(s, c, ms), c);
      SleepInTime(s, c, ms);
    case BlockSelf(c, sem) => ScheduleKeepsAlarm(BlockSection(s, c, sem), c);
    case KillSelf(c) => ScheduleKeepsAlarm(KillSection(s, c), c);
    case Reschedule(c) => ScheduleKeepsAlarm(s, c);
    case HandleAlarm(compareTime, armTime) => UnsleepInv(s, compareTime, armTime);
    case _ =>
  }

  lemma ScheduleKeepsAlarm(s: Sched, c: nat)
    requires s.Shape() && c < 2
    ensures var s' := Schedule(s, c); s'.sleepers == s.sleepers && s'.alarm == s.alarm && s'.now == s.now
  {
  }

  lemma SleepInTime(s: Sched, c: nat, ms: nat)
    requires s.Shape() && SelfCall(s, c) && AlarmInTime(s)
    ensures AlarmInTime(SleepSection(s, c, ms))
  {
    hide TickAfter, Removed;
  }

  /** In every run, while somebody sleeps, the alarm has fired, or is set for the first sleeper's tick at the latest
      or for the next ten microseconds. */
  lemma {:induction false} AlwaysInTime(events: seq<Event>, s: Sched)
    requires After(Initial(), events) == Some(s)
    ensures s.sleepers != [] ==> s.alarm == Fired || (s.alarm.Armed? && (s.alarm.at <= s.sleepers[0].key || s.alarm.at <= s.now + 10))
    ensures Inv(s) && AlarmInTime(s)
  {
    if events != [] {
      hide Step, Inv, AlarmInTime;
      var p := After(Initial(), events[..|events| - 1]).value;
      AlwaysInTime(events[..|events| - 1], p);
      StepInTime(p, events[|events| - 1]);
    }
    RunInv(events);
    AlarmSet(s);
  }

  lemma AlarmSet(s: Sched)
    requires Inv(s)
    ensures s.sleepers != [] ==> s.alarm.Armed? || s.alarm == Fired
  {
  }

  /** The alarm goes off. */
  lemma FiresInTime(s: Sched) returns (run: seq<Event>, s': Sched)
    requires Inv(s) && AlarmInTime(s) && s.sleepers != []
    ensures After(s, run) == Some(s') && Inv(s') && s'.alarm == Fired && s'.sleepers == s.sleepers
    ensures s'.now <= s.sleepers[0].key || s'.now <= s.now + 10
  {
    hide Inv, AlarmInTime, After;
    AlarmSet(s);
    NoEvents(s);
    run, s' := [], s;
    if s.alarm.Armed? {
      AlarmBound(s);
      ShapeOf(s);
      var wait := Wait(if s.alarm.at <= s.now then 0 else s.alarm.at - s.now);
      var s1 := Step(s, wait);
      Then(s, [], s, wait);
      StepInv(s, wait);
      Then(s, [] + [wait], s1, AlarmFires);
      StepInv(s1, AlarmFires);
      run, s' := [] + [wait] + [AlarmFires], Step(s1, AlarmFires);
    }
  }

  lemma ShapeOf(s: Sched)
    requires Inv(s)
    ensures s.Shape()
  {
  }

  /** If nothing else happens, the first sleeper is awake by its tick, or ten microseconds from now. */
  lemma WakesInTime(s: Sched) returns (run: seq<Event>, w: Sched)
    requires Inv(s) && AlarmInTime(s) && s.sleepers != []
    ensures After(s, run) == Some(w) && (w.now <= s.sleepers[0].key || w.now <= s.now + 10)
    ensures s.sleepers[0].id in w.threads && w.threads[s.sleepers[0].id].state == ACTIVE
  {
    hide Inv, AlarmInTime, After, Unsleep;
    var before, s1 := FiresInTime(s);
    ShapeOf(s1);
    UnsleepInv(s1, s1.now, s1.now);
    Then(s, before, s1, HandleAlarm(s1.now, s1.now));
    run, w := before + [HandleAlarm(s1.now, s1.now)], Step(s1, HandleAlarm(s1.now, s1.now));
    UnsleepTime(s1, s1.now);
  }

  lemma NoEvents(s: Sched)
    ensures After(s, []) == Some(s)
  {
  }

  lemma AlarmBound(s: Sched)
    requires AlarmInTime(s) && s.sleepers != [] && s.alarm.Armed?
    ensures s.alarm.at <= s.sleepers[0].key || s.alarm.at <= s.now + 10
  {
  }

  lemma UnsleepTime(s: Sched, time: nat)
    requires s.Shape() && s.sleepers != [] && s.Has(s.sleepers[0].id)
    ensures Unsleep(s, time, time).now == time && s.sleepers[0].id in Unsleep(s, time, time).threads
  {
  }

  lemma Then(s0: Sched, run: seq<Event>, s: Sched, e: Event)
    requires After(s0, run) == Some(s) && Enabled(s, e)
    ensures After(s0, run + [e]) == Some(Step(s, e))
  {
    assert (run + [e])[..|run + [e]| - 1] == run;
  }
}
