/** The state of the two-core scheduler of os/schedule.c and its lock-held sections as functions.
    A thread list is a sequence whose first element is its root. */
module SchedModel {
  import opened Clock
  import opened Options
  import opened RingSeq
  import opened WaitQueue

  const PRIORITY_LVL_CNT: nat := 5
  const IDLE_PRIORITY: nat := PRIORITY_LVL_CNT

  type Tid = nat

  datatype ThreadState = RUNNING | ACTIVE | SLEEPING | BLOCKED(sem: nat)

  datatype Tcb = Tcb(priority: nat, state: ThreadState, resumeTick: nat)

  /** What RunPt and NextRunPt can point to. */
  datatype RunPtr = Unset | Idle | BlackHole | Thread(id: Tid)

  /** One core: RunPt, NextRunPt, and whether a PendSV is pending. */
  datatype Core = Core(runPt: RunPtr, nextRunPt: RunPtr, pending: bool) {
    /** The thread the core runs, or is about to switch to. */
    function Owned(): RunPtr { if pending then nextRunPt else runPt }
  }

  /** The sleep alarm: off, armed for a time, or fired with the interrupt not handled yet. */
  datatype Alarm = Off | Armed(at: nat) | Fired

  datatype Sched = Sched(
    threads: map<Tid, Tcb>,
    rings: seq<seq<Tid>>,
    activeCnt: seq<int>,
    runningCnt: seq<int>,
    sleepers: seq<Waiter>,
    blocked: map<nat, seq<Waiter>>,
    cores: seq<Core>,
    lifetime: nat,
    now: nat,
    alarm: Alarm,
    arrivals: nat)
  {
    predicate Shape()
    {
      |rings| == PRIORITY_LVL_CNT && |activeCnt| == PRIORITY_LVL_CNT + 1 && |runningCnt| == PRIORITY_LVL_CNT && |cores| == 2
    }

    function Blocked(sem: nat): seq<Waiter> { if sem in blocked then blocked[sem] else [] }

    predicate Has(t: Tid) { t in threads && threads[t].priority < PRIORITY_LVL_CNT }
  }

  function SetState(s: Sched, t: Tid, st: ThreadState): (s': Sched)
    requires t in s.threads
    ensures s.Shape() ==> s'.Shape()
  {
    s.(threads := s.threads[t := s.threads[t].(state := st)])
  }

  function AddActive(s: Sched, p: nat, d: int): (s': Sched)
    requires p < |s.activeCnt|
    ensures s.Shape() ==> s'.Shape()
  {
    s.(activeCnt := s.activeCnt[p := s.activeCnt[p] + d])
  }

  function AddRunning(s: Sched, p: nat, d: int): (s': Sched)
    requires p < |s.runningCnt|
    ensures s.Shape() ==> s'.Shape()
  {
    s.(runningCnt := s.runningCnt[p := s.runningCnt[p] + d])
  }

  function SetRing(s: Sched, p: nat, ring: seq<Tid>): (s': Sched)
    requires p < |s.rings|
    ensures s.Shape() ==> s'.Shape()
  {
    s.(rings := s.rings[p := ring])
  }

  function SetCore(s: Sched, c: nat, core: Core): (s': Sched)
    requires c < |s.cores|
    ensures s.Shape() ==> s'.Shape()
  {
    s.(cores := s.cores[c := core])
  }

  // ---------------------------------------------------------------- rings

  function Enqueue(s: Sched, t: Tid): (s': Sched)
    requires s.Shape() && s.Has(t)
    ensures s'.Shape()
  {
    var p := s.threads[t].priority;
    AddActive(SetState(SetRing(s, p, [t] + s.rings[p]), t, ACTIVE), p, 1)
  }

  function Dequeue(s: Sched, t: Tid): (s': Sched)
    requires s.Shape() && s.Has(t)
    ensures s'.Shape()
  {
    var p := s.threads[t].priority;
    var s1 := if s.threads[t].state == RUNNING then AddRunning(s, p, -1) else s;
    SetRing(s1, p, if s1.activeCnt[p] == 0 && s1.runningCnt[p] == 0 then [] else Removed(s.rings[p], t))
  }

  // ---------------------------------------------------------------- choosing a thread

  /** The first level from p on with an active thread, or the idle level. */
  function BestPriority(active: seq<int>, p: nat): (r: nat)
    requires p <= IDLE_PRIORITY == |active| - 1
    ensures p <= r <= IDLE_PRIORITY && (r < IDLE_PRIORITY ==> active[r] != 0)
    ensures forall q :: p <= q < r ==> active[q] == 0
    decreases IDLE_PRIORITY - p
  {
    if p == IDLE_PRIORITY || active[p] != 0 then p else BestPriority(active, p + 1)
  }

  /** Mark t, a member of ring p, as running. */
  function Start(s: Sched, p: nat, t: Tid): (s': Sched)
    requires s.Shape() && p < PRIORITY_LVL_CNT && t in s.threads
    ensures s'.Shape()
  {
    AddRunning(AddActive(SetState(s, t, RUNNING), p, -1), p, 1)
  }

  /** The first half of schedule: a thread that was running goes back to being active. */
  function PutBack(s: Sched, c: nat): (s': Sched)
    requires s.Shape() && c < 2
    ensures s'.Shape()
  {
    match s.cores[c].runPt
    case Thread(t) =>
      if s.Has(t) && s.threads[t].state == RUNNING then
        var p := s.threads[t].priority;
        AddRunning(AddActive(SetState(s, t, ACTIVE), p, 1), p, -1)
      else s
    case _ => s
  }

  /** Which member of a non-empty ring schedule takes: the root, or its successor if the root runs. */
  function Choice(s: Sched, p: nat): Tid
    requires p < |s.rings| && s.rings[p] != [] && s.rings[p][0] in s.threads
  {
    var ring := s.rings[p];
    if s.threads[ring[0]].state == RUNNING then Rotate(ring)[0] else ring[0]
  }

  /** The second half of schedule: choose, mark and request the context switch. */
  function Pick(s: Sched, c: nat): (s': Sched)
    requires s.Shape() && c < 2
    ensures s'.Shape()
  {
    var p := BestPriority(s.activeCnt, 0);
    var core := s.cores[c];
    if p == IDLE_PRIORITY then SetCore(s, c, core.(nextRunPt := Idle, pending := true))
    else if s.rings[p] == [] || s.rings[p][0] !in s.threads || Choice(s, p) !in s.threads then s
    else
      var t := Choice(s, p);
      var s1 := if s.threads[s.rings[p][0]].state == RUNNING then s else SetRing(s, p, Rotate(s.rings[p]));
      SetCore(Start(s1, p, t), c, core.(nextRunPt := Thread(t), pending := true))
  }

  function Schedule(s: Sched, c: nat): (s': Sched)
    requires s.Shape() && c < 2
    ensures s'.Shape()
  {
    Pick(PutBack(s, c), c)
  }

  /** The first thread init_scheduler gives a core: always the root, which it does not look at. */
  function Launch(s: Sched, c: nat): (s': Sched)
    requires s.Shape() && c < 2
    ensures s'.Shape()
  {
    var s0 := s.(activeCnt := s.activeCnt[IDLE_PRIORITY := 1]);
    var p := BestPriority(s0.activeCnt, 0);
    if p == IDLE_PRIORITY then SetCore(s0, c, s.cores[c].(runPt := Idle, pending := false))
    else if s.rings[p] == [] || s.rings[p][0] !in s.threads then s
    else
      var t := s.rings[p][0];
      SetCore(Start(SetRing(s0, p, Rotate(s.rings[p])), p, t), c, s.cores[c].(runPt := Thread(t), pending := false))
  }

  /** The PendSV handler: RunPt := NextRunPt. */
  function PendSV(s: Sched, c: nat): (s': Sched)
    requires s.Shape() && c < 2
    ensures s'.Shape()
  {
    SetCore(s, c, s.cores[c].(runPt := s.cores[c].nextRunPt, pending := false))
  }

  // ---------------------------------------------------------------- waiting

  /** Append to the semaphore's blocked list, in order of priority. */
  function BlockOn(s: Sched, t: Tid, sem: nat): (s': Sched)
    requires t in s.threads
    ensures s.Shape() ==> s'.Shape()
  {
    var w := Waiter(t, s.threads[t].priority, s.arrivals);
    SetState(s, t, BLOCKED(sem)).(blocked := s.blocked[sem := Insert(s.Blocked(sem), w)], arrivals := s.arrivals + 1)
  }

  /** sched_block up to its unlock. */
  function BlockSection(s: Sched, c: nat, sem: nat): (s': Sched)
    requires s.Shape() && c < 2 && s.cores[c].runPt.Thread? && s.Has(s.cores[c].runPt.id)
    ensures s'.Shape()
  {
    BlockOn(Dequeue(s, s.cores[c].runPt.id), s.cores[c].runPt.id, sem)
  }

  /** sched_unblock: the first waiter goes to the front of its ring. */
  function Unblock(s: Sched, sem: nat): (s': Sched)
    requires s.Shape() && s.Blocked(sem) != [] && s.Has(s.Blocked(sem)[0].id)
    ensures s'.Shape()
  {
    Enqueue(s.(blocked := s.blocked[sem := s.Blocked(sem)[1..]]), s.Blocked(sem)[0].id)
  }

  /** Arming the alarm does not take back an interrupt that is pending. */
  function Rearmed(alarm: Alarm, tick: nat): Alarm
  {
    if alarm == Fired then Fired else Armed(tick)
  }

  /** Insert into the sleep list and arm the alarm if the thread became its head. */
  function SleepOn(s: Sched, t: Tid, tick: nat): (s': Sched)
    requires t in s.threads
    ensures s.Shape() ==> s'.Shape()
  {
    var w := Waiter(t, tick, s.arrivals);
    s.(threads := s.threads[t := s.threads[t].(state := SLEEPING, resumeTick := tick)],
       sleepers := Insert(s.sleepers, w),
       alarm := if s.sleepers == [] || tick < s.sleepers[0].key then Rearmed(s.alarm, tick) else s.alarm,
       arrivals := s.arrivals + 1)
  }

  /** sleep up to its unlock. */
  function SleepSection(s: Sched, c: nat, ms: nat): (s': Sched)
    requires s.Shape() && c < 2 && s.cores[c].runPt.Thread? && s.Has(s.cores[c].runPt.id)
    ensures s'.Shape()
  {
    SleepOn(Dequeue(s, s.cores[c].runPt.id), s.cores[c].runPt.id, TickAfter(s.now, ms))
  }

  /** unsleep, the alarm's interrupt handler: compareTime and armTime are its two clock readings. */
  function Unsleep(s: Sched, compareTime: nat, armTime: nat): (s': Sched)
    requires s.Shape() && (s.sleepers != [] ==> s.Has(s.sleepers[0].id))
    ensures s'.Shape()
  {
    if s.sleepers == [] then s.(alarm := Off, now := armTime)
    else
      var rest := s.sleepers[1..];
      var alarm := if rest == [] then Off
                   else if rest[0].key < compareTime + 10 then Armed(armTime + 10)
                   else Armed(rest[0].key);
      Enqueue(s.(sleepers := rest, alarm := alarm, now := armTime), s.sleepers[0].id)
  }

  /** kill up to its call of schedule. */
  function KillSection(s: Sched, c: nat): (s': Sched)
    requires s.Shape() && c < 2 && s.cores[c].runPt.Thread? && s.Has(s.cores[c].runPt.id)
    ensures s'.Shape()
  {
    var t := s.cores[c].runPt.id;
    var s1 := Dequeue(s, t);
    SetCore(s1.(threads := s1.threads - {t}), c, s.cores[c].(runPt := BlackHole))
  }

  function AddThread(s: Sched, priority: nat): (s': Sched)
    requires s.Shape() && priority < PRIORITY_LVL_CNT
    ensures s'.Shape()
  {
    var t := s.lifetime + 1;
    Enqueue(s.(threads := s.threads[t := Tcb(priority, ACTIVE, 0)], lifetime := t), t)
  }

  /** init_semaphore: the list is empty, whoever was in it. */
  function InitBlocked(s: Sched, sem: nat): (s': Sched)
    ensures s.Shape() ==> s'.Shape()
  {
    s.(blocked := s.blocked[sem := []])
  }

  // ---------------------------------------------------------------- runs

  /** The sections a run interleaves. Block, Sleep and Kill include the schedule that ends them. */
  datatype Event =
    | LaunchCore(core: nat)
    | Reschedule(core: nat)
    | SwitchContext(core: nat)
    | Create(priority: nat)
    | InitSemaphore(sem: nat)
    | BlockSelf(core: nat, sem: nat)
    | Signal(sem: nat)
    | SleepSelf(core: nat, ms: nat)
    | KillSelf(core: nat)
    | Wait(time: nat)
    | AlarmFires
    | HandleAlarm(compareTime: nat, armTime: nat)

  /** When a section can run: no second schedule before the switch, no use of a semaphore before init_semaphore,
      and no init_semaphore on one with waiters. */
  predicate Enabled(s: Sched, e: Event)
  {
    s.Shape() &&
    match e
    case LaunchCore(c) => c < 2 && s.cores[c].runPt == Unset
    case Reschedule(c) => c < 2 && s.cores[c].runPt != Unset && !s.cores[c].pending
    case SwitchContext(c) => c < 2 && s.cores[c].pending
    case Create(p) => p < PRIORITY_LVL_CNT
    case InitSemaphore(sem) => s.Blocked(sem) == []
    case BlockSelf(c, sem) => SelfCall(s, c) && sem in s.blocked
    case Signal(sem) => s.Blocked(sem) != [] && s.Has(s.Blocked(sem)[0].id)
    case SleepSelf(c, ms) => SelfCall(s, c) && 0 < ms
    case KillSelf(c) => SelfCall(s, c)
    case Wait(time) => true
    case AlarmFires => s.alarm.Armed? && s.alarm.at <= s.now
    case HandleAlarm(compareTime, armTime) =>
      s.alarm == Fired && s.now <= compareTime <= armTime && (s.sleepers != [] ==> s.Has(s.sleepers[0].id))
  }

  /** A call made by the thread that runs on core c. */
  predicate SelfCall(s: Sched, c: nat)
  {
    |s.cores| == 2 && c < 2 && !s.cores[c].pending && s.cores[c].runPt.Thread? && s.Has(s.cores[c].runPt.id)
  }

  function Step(s: Sched, e: Event): (s': Sched)
    requires Enabled(s, e)
    ensures s'.Shape()
  {
    match e
    case LaunchCore(c) => Launch(s, c)
    case Reschedule(c) => Schedule(s, c)
    case SwitchContext(c) => PendSV(s, c)
    case Create(p) => AddThread(s, p)
    case InitSemaphore(sem) => InitBlocked(s, sem)
    case BlockSelf(c, sem) => Schedule(BlockSection(s, c, sem), c)
    case Signal(sem) => Unblock(s, sem)
    case SleepSelf(c, ms) => Schedule(SleepSection(s, c, ms), c)
    case KillSelf(c) => Schedule(KillSection(s, c), c)
    case Wait(time) => s.(now := s.now + time)
    case AlarmFires => s.(alarm := Fired)
    case HandleAlarm(compareTime, armTime) => Unsleep(s, compareTime, armTime)
  }

  /** The scheduler before any thread exists. */
  function Initial(): Sched
  {
    Sched(map[], seq(PRIORITY_LVL_CNT, i => []), seq(PRIORITY_LVL_CNT + 1, i => 0), seq(PRIORITY_LVL_CNT, i => 0), [], map[],
          seq(2, i => Core(Unset, Unset, false)), 0, 0, Off, 0)
  }

  /** The state after a run of events from s, if each is enabled when it happens. */
  ghost function After(s: Sched, events: seq<Event>): Option<Sched>
  {
    if events == [] then Some(s)
    else
      var p := After(s, events[..|events| - 1]);
      if p.Some? && Enabled(p.value, events[|events| - 1]) then Some(Step(p.value, events[|events| - 1])) else None
  }
}
