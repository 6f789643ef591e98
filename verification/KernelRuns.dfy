/** Runs in memory: a kernel on which the methods of Kernel are called one after another goes through the runs of
    the state machine, so what SchedTheorems, SchedRounds and SchedSleep prove of those holds of its lists. */
module KernelRuns {
  import opened Options
  import opened SchedModel
  import opened SchedSafety
  import opened SchedEffects
  import opened ThreadListsClass
  import opened KernelClass

  /** What the method behind an event asks of its caller. */
  ghost predicate Callable(k: Kernel, e: Event)
    requires k.Valid()
    reads k.Repr(), k.lists.home.Keys, k.lists.BlockedNodes(), k.lists.sleep.Contents
  {
    match e
    case LaunchCore(c) => c < 2 && k.runPt[c] == Nothing
    case Reschedule(c) => c < 2 && k.runPt[c] != Nothing && !k.pendSV[c]
    case SwitchContext(c) => c < 2 && k.pendSV[c]
    case Create(p) => p < PRIORITY_LVL_CNT
    case InitSemaphore(sem) => sem in k.lists.semaphores ==> k.lists.semaphores[sem].root == null
    case BlockSelf(c, sem) => c < 2 && !k.pendSV[c] && k.runPt[c].Ref? && sem in k.lists.semaphores
    case Signal(sem) => sem in k.lists.semaphores && k.lists.semaphores[sem].root != null
    case SleepSelf(c, ms) => c < 2 && !k.pendSV[c] && k.runPt[c].Ref? && 0 < ms
    case KillSelf(c) => c < 2 && !k.pendSV[c] && k.runPt[c].Ref?
    case Wait(time) => true
    case AlarmFires => k.sleepAlarm.Armed? && k.sleepAlarm.at <= k.clock
    case HandleAlarm(compareTime, armTime) => k.sleepAlarm == Fired && k.clock <= compareTime <= armTime
  }

  /** In a kernel that works, that is when the event is enabled. */
  lemma CallableIff(k: Kernel, e: Event)
    requires k.Valid()
    ensures Callable(k, e) <==> Enabled(k.Abs(), e)
  {
    hide Inv, ThreadLists.Linked, ThreadLists.Abs, ThreadLists.Repr;
    match e
    case BlockSelf(c, sem) => CallerIff(k, c); k.SemaphoreHead(sem);
    case SleepSelf(c, _) => CallerIff(k, c);
    case KillSelf(c) => CallerIff(k, c);
    case InitSemaphore(sem) => k.SemaphoreHead(sem);
    case Signal(sem) =>
      k.SemaphoreHead(sem);
      if k.Abs().Blocked(sem) != [] { SignalInv(k.Abs(), sem); }
    case HandleAlarm(compareTime, armTime) =>
      if Callable(k, e) { UnsleepInv(k.Abs(), compareTime, armTime); }
    case _ =>
  }

  lemma CallerIff(k: Kernel, c: nat)
    requires k.Valid()
    ensures SelfCall(k.Abs(), c) <==> c < 2 && !k.pendSV[c] && k.runPt[c].Ref?
  {
    hide Inv, ThreadLists.Linked, ThreadLists.Abs, ThreadLists.Repr;
    if c < 2 && !k.pendSV[c] && k.runPt[c].Ref? { k.CallerOk(c); }
  }

  /** One event. */
  method Perform(k: Kernel, e: Event)
    requires k.Valid() && Enabled(k.Abs(), e)
    modifies k.Repr()
    ensures k.Valid() && k.Abs() == Step(old(k.Abs()), e) && fresh(k.Repr() - old(k.Repr()))
    ensures Effect(old(k.Abs()), e, k.Abs())
  {
    hide Effect, Created, Signalled, Woken, Inv, Enqueue, Launch, Schedule, BlockSection, SleepSection, KillSection, Unblock, Unsleep, AddThread;
    hide ThreadLists.Linked, ThreadLists.Abs, ThreadLists.Repr;
    CallableIff(k, e);
    StepHasEffect(k.Abs(), e);
    match e
    case LaunchCore(c) => k.InitScheduler(c);
    case Reschedule(c) => k.Reschedule(c);
    case SwitchContext(c) => k.PendSVHandler(c);
    case Create(p) => var code, held := k.AddThread(p, true, true);
    case InitSemaphore(sem) => k.InitSemaphore(sem);
    case BlockSelf(c, sem) => k.SchedBlock(c, sem);
    case Signal(sem) => k.SchedUnblock(sem);
    case SleepSelf(c, ms) => k.Sleep(c, ms);
    case KillSelf(c) => k.Kill(c);
    case Wait(time) => k.PassTime(time);
    case AlarmFires => k.RingAlarm();
    case HandleAlarm(compareTime, armTime) => k.Unsleep(compareTime, armTime);
  }

  /** The TCB, or not, that a core runs or is about to switch to. */
  function OwnedRef(k: Kernel, c: nat): RunRef
    requires c < k.runPt.Length && c < k.nextRunPt.Length && c < k.pendSV.Length
    reads k.runPt, k.nextRunPt, k.pendSV
  {
    if k.pendSV[c] then k.nextRunPt[c] else k.runPt[c]
  }

  /** The two cores never have the same TCB. */
  lemma NoTcbShared(k: Kernel)
    requires k.Valid() && OwnedRef(k, 0).Ref? && OwnedRef(k, 1).Ref?
    ensures OwnedRef(k, 0).node != OwnedRef(k, 1).node
  {
    hide Inv, ThreadLists.Linked, ThreadLists.Abs, ThreadLists.Repr;
    OwnersApart(k.Abs());
  }

  lemma OwnersApart(s: Sched)
    requires Inv(s)
    ensures s.cores[0].Owned().Thread? ==> s.cores[1].Owned() != s.cores[0].Owned()
  {
    if s.cores[0].Owned().Thread? { assert s.cores[0].Owned().id in OwnedBy(s, 0); }
  }

  /** A whole run, from wherever the kernel is. */
  method Run(k: Kernel, events: seq<Event>)
    requires k.Valid() && After(k.Abs(), events).Some?
    modifies k.Repr()
    ensures k.Valid() && After(old(k.Abs()), events) == Some(k.Abs()) && fresh(k.Repr() - old(k.Repr()))
  {
    hide Effect, Inv, Step, Enabled, Kernel.Abs, Kernel.RefOk, ThreadLists.Linked;
    if events != [] {
      Run(k, events[..|events| - 1]);
      Perform(k, events[|events| - 1]);
    }
  }

  /** Every run of the state machine from power-up is one of a kernel in memory. */
  method RunFromPowerUp(events: seq<Event>) returns (k: Kernel)
    requires After(Initial(), events).Some?
    ensures fresh(k.Repr()) && k.Valid() && After(Initial(), events) == Some(k.Abs())
  {
    hide Inv, Initial, Step, Enabled, Kernel.Abs, Kernel.RefOk, ThreadLists.Linked;
    k := new Kernel();
    Run(k, events);
  }
}
