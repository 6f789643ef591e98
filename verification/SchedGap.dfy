/** sched_block and sleep release the scheduler's lock before they call schedule. What the other core can do
    in between, and when the call still ends well. At the end, what a second init_semaphore does. */
module SchedGap {
  import opened Clock
  import opened Options
  import opened RingSeq
  import opened WaitQueue
  import opened SchedModel
  import opened SchedPlacement
  import opened SchedSafety
  import opened SchedLimits

  // ---------------------------------------------------------------- a run that ends badly

  /** One thread, running on core 0; core 1 idles, and there is no semaphore yet. */
  function OneThread(): Sched
  {
    Sched(map[1 := Tcb(0, RUNNING, 0)], [[1], [], [], [], []], [0, 0, 0, 0, 0, 1], [1, 0, 0, 0, 0], [], map[],
          [Core(Thread(1), Unset, false), Core(Idle, Unset, false)], 1, 0, Off, 0)
  }

  /** The same with a semaphore nobody is blocked on. */
  function OneSemaphore(sem: nat): Sched
  {
    OneThread().(blocked := map[sem := []])
  }

  /** The run that leads there. */
  function OneRun(sem: nat): seq<Event>
  {
    [Create(0), LaunchCore(0), LaunchCore(1), InitSemaphore(sem)]
  }

  lemma OneSemaphoreReached(sem: nat)
    ensures After(Initial(), OneRun(sem)) == Some(OneSemaphore(sem))
  {
    OneThreadReached();
    AfterAppend([Create(0), LaunchCore(0), LaunchCore(1)], InitSemaphore(sem), OneThread());
    assert [Create(0), LaunchCore(0), LaunchCore(1)] + [InitSemaphore(sem)] == OneRun(sem);
  }

  lemma OneThreadReached()
    ensures After(Initial(), [Create(0), LaunchCore(0), LaunchCore(1)]) == Some(OneThread())
  {
    assert After(Initial(), []) == Some(Initial());
    FirstCreated();
    AfterAppend([], Create(0), Initial());
    FirstLaunched();
    AfterAppend([Create(0)], LaunchCore(0), Created());
    SecondLaunched();
    AfterAppend([Create(0), LaunchCore(0)], LaunchCore(1), Step(Created(), LaunchCore(0)));
    assert [] + [Create(0)] == [Create(0)] && [Create(0)] + [LaunchCore(0)] == [Create(0), LaunchCore(0)];
    assert [Create(0), LaunchCore(0)] + [LaunchCore(1)] == [Create(0), LaunchCore(0), LaunchCore(1)];
  }

  lemma SecondLaunched()
    ensures Step(Step(Created(), LaunchCore(0)), LaunchCore(1)) == OneThread()
  {
    FirstLaunched();
    assert BestPriority([0, 0, 0, 0, 0, 1], 5) == BestPriority([0, 0, 0, 0, 0, 1], 0) == 5;
  }

  lemma FirstLaunched()
    ensures Step(Created(), LaunchCore(0)) == OneThread().(cores := [Core(Thread(1), Unset, false), Core(Unset, Unset, false)])
  {
    var s := Created();
    assert s.cores == [Core(Unset, Unset, false), Core(Unset, Unset, false)] && s.runningCnt == [0, 0, 0, 0, 0];
    assert s.activeCnt[IDLE_PRIORITY := 1] == [1, 0, 0, 0, 0, 1];
    assert BestPriority([1, 0, 0, 0, 0, 1], 0) == 0;
    assert Rotate([1]) == [1];
    var s1 := Step(s, LaunchCore(0));
    assert s1.rings == [[1], [], [], [], []];
    assert s1.activeCnt == [0, 0, 0, 0, 0, 1] && s1.runningCnt == [1, 0, 0, 0, 0];
    assert s1.threads == map[1 := Tcb(0, RUNNING, 0)];
  }

  /** sched_block releases the scheduler lock before it calls schedule. If the other core signals the
      semaphore and reschedules in between, both cores own the same thread. */
  lemma BlockGapSharesThread(sem: nat)
    ensures var s := OneSemaphore(sem);
            && After(Initial(), OneRun(sem)) == Some(s) && Inv(s) && Enabled(s, BlockSelf(0, sem))
            && var s1 := BlockSection(s, 0, sem);
               s1.Blocked(sem) != [] && s1.Has(s1.Blocked(sem)[0].id)
               && var s2 := Schedule(Unblock(s1, sem), 1);
                  s2.cores[0].Owned() == Thread(1) && s2.cores[1].Owned() == Thread(1)
  {
    OneSemaphoreReached(sem);
    RunInv(OneRun(sem));
    hide After, Inv;
    var s1 := BlockSection(OneSemaphore(sem), 0, sem);
    assert s1.Blocked(sem) == [Waiter(1, 0, 0)];
    var s2 := Unblock(s1, sem);
    assert s2.rings[0] == [1] && s2.activeCnt[0] == 1;
  }

  // ---------------------------------------------------------------- every run

  /** In that gap, and in the one of sleep, core c owns nothing. The schedule that ends the call keeps the
      invariant iff the other core has not picked the caller meanwhile. */
  lemma GapIff(s: Sched, c: nat)
    requires Between(s, c)
    ensures var r := s.cores[c].runPt;
            Inv(Schedule(s, c)) <==> !(r.Thread? && s.Has(r.id) && s.threads[r.id].state == RUNNING)
  {
    var r := s.cores[c].runPt;
    if r.Thread? && s.Has(r.id) && s.threads[r.id].state == RUNNING {
      hide RingOk, BlockedOk, SleepersOk, Pick;
      PickKeeps(PutBack(s, c), c, r.id);
      assert r.id in OwnedBy(s, 1 - c) && OwnedBy(Schedule(s, c), 1 - c) == OwnedBy(s, 1 - c);
    } else {
      assert PutBack(s, c) == s;
      PickInv(s, c);
    }
  }

  /** Right after sched_block's and sleep's unlock it has not. */
  lemma GapOpens(s: Sched, c: nat, sem: nat, ms: nat)
    requires Inv(s) && SelfCall(s, c)
    ensures Between(BlockSection(s, c, sem), c) && Inv(Schedule(BlockSection(s, c, sem), c))
    ensures Between(SleepSection(s, c, ms), c) && Inv(Schedule(SleepSection(s, c, ms), c))
  {
    BlockBetween(s, c, sem);
    PickInv(BlockSection(s, c, sem), c);
    SleepBetween(s, c, ms);
    PickInv(SleepSection(s, c, ms), c);
    hide Inv, Between, Pick;
  }

  /** A step that is not one of core c's. */
  predicate Elsewhere(e: Event, c: nat)
  {
    match e
    case LaunchCore(d) => d != c
    case Reschedule(d) => d != c
    case SwitchContext(d) => d != c
    case BlockSelf(d, _) => d != c
    case SleepSelf(d, _) => d != c
    case KillSelf(d) => d != c
    case _ => true
  }

  /** s as if core c ran its idle thread. */
  function WithIdle(s: Sched, c: nat): Sched
    requires c < |s.cores|
  {
    SetCore(s, c, Core(Idle, Idle, false))
  }

  /** A core that owns nothing might as well be idle. */
  lemma IdleIff(s: Sched, c: nat)
    requires s.Shape() && c < 2 && s.cores[c].runPt != Unset && !s.cores[c].pending
    ensures Between(s, c) <==> Inv(WithIdle(s, c))
  {
    hide RingOk, BlockedOk, SleepersOk;
    var s' := WithIdle(s, c);
    if Between(s, c) { PlacedElsewhere(s, s', {}); }
    if Inv(s') { PlacedElsewhere(s', s, {}); }
  }

  lemma RequestCommutes(s: Sched, d: nat, c: nat, core: Core)
    requires s.Shape() && c < 2 && d < 2 && d != c
    ensures SetCore(WithIdle(s, c), d, core) == WithIdle(SetCore(s, d, core), c) && SetCore(s, d, core).cores[c] == s.cores[c]
  {
    assert SetCore(WithIdle(s, c), d, core).cores == WithIdle(SetCore(s, d, core), c).cores;
  }

  lemma PickCommutes(s: Sched, d: nat, c: nat)
    requires s.Shape() && c < 2 && d < 2 && d != c
    ensures Pick(WithIdle(s, c), d) == WithIdle(Pick(s, d), c) && Pick(s, d).cores[c] == s.cores[c]
  {
    hide BestPriority, Rotate, Start;
    var p := BestPriority(s.activeCnt, 0);
    if p == IDLE_PRIORITY {
      RequestCommutes(s, d, c, s.cores[d].(nextRunPt := Idle, pending := true));
    } else if s.rings[p] != [] && s.rings[p][0] in s.threads && Choice(s, p) in s.threads {
      var t := Choice(s, p);
      var s1 := if s.threads[s.rings[p][0]].state == RUNNING then s else SetRing(s, p, Rotate(s.rings[p]));
      StartCommutes(s1, c, Core(Idle, Idle, false), p, t);
      RequestCommutes(Start(s1, p, t), d, c, s.cores[d].(nextRunPt := Thread(t), pending := true));
    }
  }

  lemma LaunchCommutes(s: Sched, d: nat, c: nat)
    requires s.Shape() && c < 2 && d < 2 && d != c
    ensures Launch(WithIdle(s, c), d) == WithIdle(Launch(s, d), c) && Launch(s, d).cores[c] == s.cores[c]
  {
    hide BestPriority, Rotate;
    assert Launch(WithIdle(s, c), d).cores == WithIdle(Launch(s, d), c).cores;
  }

  lemma PutBackCommutes(s: Sched, d: nat, c: nat)
    requires s.Shape() && c < 2 && d < 2 && d != c
    ensures PutBack(WithIdle(s, c), d) == WithIdle(PutBack(s, d), c) && PutBack(s, d).cores == s.cores
  {
  }

  lemma ScheduleCommutes(s: Sched, d: nat, c: nat)
    requires s.Shape() && c < 2 && d < 2 && d != c
    ensures Schedule(WithIdle(s, c), d) == WithIdle(Schedule(s, d), c) && Schedule(s, d).cores[c] == s.cores[c]
  {
    hide Pick, PutBack;
    PutBackCommutes(s, d, c);
    PickCommutes(PutBack(s, d), d, c);
  }

  /** The sections before the schedule of a call. */
  lemma BlockCommutes(s: Sched, d: nat, c: nat, sem: nat)
    requires c < 2 && d < 2 && d != c && SelfCall(s, d) && s.Shape()
    ensures SelfCall(WithIdle(s, c), d)
    ensures BlockSection(WithIdle(s, c), d, sem) == WithIdle(BlockSection(s, d, sem), c) && BlockSection(s, d, sem).cores == s.cores
  {
    hide Insert, Removed;
  }

  lemma SleepCommutes(s: Sched, d: nat, c: nat, ms: nat)
    requires c < 2 && d < 2 && d != c && SelfCall(s, d) && s.Shape()
    ensures SelfCall(WithIdle(s, c), d)
    ensures SleepSection(WithIdle(s, c), d, ms) == WithIdle(SleepSection(s, d, ms), c) && SleepSection(s, d, ms).cores == s.cores
  {
    hide Insert, Removed, TickAfter;
  }

  lemma KillCommutes(s: Sched, d: nat, c: nat)
    requires c < 2 && d < 2 && d != c && SelfCall(s, d) && s.Shape()
    ensures SelfCall(WithIdle(s, c), d)
    ensures KillSection(WithIdle(s, c), d) == WithIdle(KillSection(s, d), c) && KillSection(s, d).cores[c] == s.cores[c]
  {
    hide Removed;
    assert KillSection(WithIdle(s, c), d).cores == WithIdle(KillSection(s, d), c).cores;
  }

  /** Steps that any core or interrupt can take. */
  lemma AnyCoreCommutes(s: Sched, e: Event, c: nat)
    requires Enabled(s, e) && c < 2 && (e.Create? || e.InitSemaphore? || e.Signal? || e.Wait? || e.AlarmFires? || e.HandleAlarm?)
    ensures Enabled(WithIdle(s, c), e) && Step(WithIdle(s, c), e) == WithIdle(Step(s, e), c)
    ensures Step(s, e).cores[c] == s.cores[c]
  {
  }

  /** The other core's steps do not look at core c. */
  lemma StepCommutes(s: Sched, e: Event, c: nat)
    requires Enabled(s, e) && c < 2 && Elsewhere(e, c)
    ensures Enabled(WithIdle(s, c), e) && Step(WithIdle(s, c), e) == WithIdle(Step(s, e), c)
    ensures Step(s, e).cores[c] == s.cores[c]
  {
    hide Schedule, Launch, BlockSection, SleepSection, KillSection, Enqueue;
    match e
    case LaunchCore(d) => LaunchCommutes(s, d, c);
    case Reschedule(d) => ScheduleCommutes(s, d, c);
    case SwitchContext(d) => RequestCommutes(s, d, c, s.cores[d].(runPt := s.cores[d].nextRunPt, pending := false));
    case BlockSelf(d, sem) =>
      BlockCommutes(s, d, c, sem);
      ScheduleCommutes(BlockSection(s, d, sem), d, c);
    case SleepSelf(d, ms) =>
      SleepCommutes(s, d, c, ms);
      ScheduleCommutes(SleepSection(s, d, ms), d, c);
    case KillSelf(d) =>
      KillCommutes(s, d, c);
      ScheduleCommutes(KillSection(s, d), d, c);
    case _ => AnyCoreCommutes(s, e, c);
  }

  /** Whatever the other core does in the gap, core c's call ends well iff its thread is not picked by
      the time of the schedule. */
  lemma {:induction false} GapRun(s: Sched, c: nat, events: seq<Event>)
    requires Between(s, c) && After(s, events).Some? && forall i :: 0 <= i < |events| ==> Elsewhere(events[i], c)
    ensures var w := After(s, events).value;
            && Between(w, c) && w.cores[c] == s.cores[c]
            && var r := s.cores[c].runPt;
               Inv(Schedule(w, c)) <==> !(r.Thread? && w.Has(r.id) && w.threads[r.id].state == RUNNING)
  {
    if events != [] {
      hide Inv, Between, Step, Elsewhere, Schedule;
      var n := |events| - 1;
      var p := After(s, events[..n]).value;
      GapRun(s, c, events[..n]);
      BetweenShape(p, c);
      IdleIff(p, c);
      StepCommutes(p, events[n], c);
      StepInv(WithIdle(p, c), events[n]);
      IdleIff(Step(p, events[n]), c);
    }
    GapIff(After(s, events).value, c);
  }

  lemma BetweenShape(s: Sched, c: nat)
    requires Between(s, c)
    ensures s.Shape() && c < 2 && s.cores[c].runPt != Unset && !s.cores[c].pending
  {
  }

  // ---------------------------------------------------------------- a second init_semaphore

  /** init_semaphore on a semaphore with a waiter leaves that thread in no list at all. */
  lemma SecondInitForgets(sem: nat)
    ensures exists events, s :: After(Initial(), events) == Some(s) && s.Blocked(sem) != [] && !Inv(InitBlocked(s, sem))
  {
    var s, e := OneSemaphore(sem), BlockSelf(0, sem);
    OneSemaphoreReached(sem);
    AfterAppend(OneRun(sem), e, s);
    RunInv(OneRun(sem) + [e]);
    var s1 := BlockSection(s, 0, sem);
    assert s1.Blocked(sem) == [Waiter(1, 0, 0)];
    ScheduleKeepsBlocked(s1, 0);
    InitSemaphoreIff(Step(s, e), sem);
  }

  lemma ScheduleKeepsBlocked(s: Sched, c: nat)
    requires s.Shape() && c < 2
    ensures Schedule(s, c).blocked == s.blocked
  {
  }
}
