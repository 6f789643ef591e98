/** A second schedule on a core before its context switch, which the code does not prevent: when it keeps
    the scheduler's invariant. */
module SchedLimits {
  import opened Options
  import opened RingSeq
  import opened SchedModel
  import opened SchedPlacement
  import opened SchedSafety

  /** schedule on a core whose context switch is pending keeps the scheduler's invariant iff the first
      choice was the thread RunPt still names, or the idle thread while RunPt names no running thread. */
  lemma SecondScheduleIff(s: Sched, c: nat)
    requires Inv(s) && c < 2 && s.cores[c].pending
    ensures var core := s.cores[c];
            Inv(Schedule(s, c)) <==>
              core.nextRunPt == core.runPt
              || (core.nextRunPt == Idle && !(core.runPt.Thread? && s.Has(core.runPt.id) && s.threads[core.runPt.id].state == RUNNING))
  {
    var core := s.cores[c];
    if core.nextRunPt == core.runPt || (core.nextRunPt == Idle && !(core.runPt.Thread? && s.Has(core.runPt.id) && s.threads[core.runPt.id].state == RUNNING)) {
      SecondScheduleKeeps(s, c);
    } else if core.nextRunPt == Idle {
      SecondScheduleSteals(s, c);
    } else {
      SecondScheduleStrands(s, c);
    }
  }

  /** A pending choice that schedule takes back, or that owned nothing, does no harm. */
  lemma SecondScheduleKeeps(s: Sched, c: nat)
    requires Inv(s) && c < 2 && s.cores[c].pending
    requires var core := s.cores[c];
             core.nextRunPt == core.runPt
             || (core.nextRunPt == Idle && !(core.runPt.Thread? && s.Has(core.runPt.id) && s.threads[core.runPt.id].state == RUNNING))
    ensures Inv(Schedule(s, c))
  {
    if s.cores[c].nextRunPt == s.cores[c].runPt {
      TakenBack(s, c);
    } else {
      NothingOwned(s, c);
    }
  }

  lemma TakenBack(s: Sched, c: nat)
    requires Inv(s) && c < 2 && s.cores[c].pending && s.cores[c].nextRunPt == s.cores[c].runPt
    ensures Inv(Schedule(s, c))
  {
    var settled := SetCore(s, c, s.cores[c].(pending := false));
    SettledInv(s, c);
    PutBackBetween(settled, c);
    PickInv(PutBack(settled, c), c);
    SettledPutBack(s, c);
    PickForgets(PutBack(s, c), c);
    hide Inv, Between, Pick, PutBack;
  }

  lemma SettledInv(s: Sched, c: nat)
    requires Inv(s) && c < 2 && s.cores[c].pending && s.cores[c].nextRunPt == s.cores[c].runPt
    ensures Inv(SetCore(s, c, s.cores[c].(pending := false)))
  {
    hide RingOk, BlockedOk, SleepersOk;
    PlacedElsewhere(s, SetCore(s, c, s.cores[c].(pending := false)), {});
  }

  lemma SettledPutBack(s: Sched, c: nat)
    requires s.Shape() && c < 2
    ensures PutBack(SetCore(s, c, s.cores[c].(pending := false)), c) == SetCore(PutBack(s, c), c, PutBack(s, c).cores[c].(pending := false))
  {
  }

  /** Marking a thread as running does not look at the cores. */
  lemma StartCommutes(s: Sched, c: nat, core: Core, p: nat, t: Tid)
    requires s.Shape() && c < 2 && p < PRIORITY_LVL_CNT && t in s.threads
    ensures Start(SetCore(s, c, core), p, t) == SetCore(Start(s, p, t), c, core) && Start(s, p, t).cores == s.cores
  {
  }

  /** Pick sets the pending flag whatever it was, unless it finds nothing to pick from. */
  lemma PickForgets(s: Sched, c: nat)
    requires s.Shape() && c < 2
    requires Pick(SetCore(s, c, s.cores[c].(pending := false)), c).cores[c].pending
    ensures Pick(s, c) == Pick(SetCore(s, c, s.cores[c].(pending := false)), c)
  {
    hide Rotate, BestPriority, Start;
    var idle := s.cores[c].(pending := false);
    var p := BestPriority(s.activeCnt, 0);
    if p == IDLE_PRIORITY {
      OverwriteCore(s, c, idle, s.cores[c].(nextRunPt := Idle, pending := true));
    } else {
      var t := Choice(s, p);
      var s1 := if s.threads[s.rings[p][0]].state == RUNNING then s else SetRing(s, p, Rotate(s.rings[p]));
      StartCommutes(s1, c, idle, p, t);
      OverwriteCore(Start(s1, p, t), c, idle, s.cores[c].(nextRunPt := Thread(t), pending := true));
    }
  }

  lemma OverwriteCore(s: Sched, c: nat, x: Core, y: Core)
    requires c < |s.cores|
    ensures SetCore(SetCore(s, c, x), c, y) == SetCore(s, c, y)
  {
    assert s.cores[c := x][c := y] == s.cores[c := y];
  }

  lemma NothingOwned(s: Sched, c: nat)
    requires Inv(s) && c < 2 && s.cores[c].pending && s.cores[c].nextRunPt == Idle
    requires !(s.cores[c].runPt.Thread? && s.Has(s.cores[c].runPt.id) && s.threads[s.cores[c].runPt.id].state == RUNNING)
    ensures Inv(Schedule(s, c))
  {
    hide RingOk, BlockedOk, SleepersOk, Pick;
    var settled := SetCore(s, c, s.cores[c].(pending := false));
    PlacedElsewhere(s, settled, {});
    assert PutBack(s, c) == s && Between(settled, c);
    PickInv(settled, c);
    PickForgets(s, c);
  }

  /** RunPt names a thread the other core has taken since: schedule marks it ACTIVE under that core. */
  lemma SecondScheduleSteals(s: Sched, c: nat)
    requires Inv(s) && c < 2 && s.cores[c].pending && s.cores[c].nextRunPt == Idle
    requires s.cores[c].runPt.Thread? && s.Has(s.cores[c].runPt.id) && s.threads[s.cores[c].runPt.id].state == RUNNING
    ensures !Inv(Schedule(s, c))
  {
    hide RingOk, BlockedOk, SleepersOk, Pick;
    var t, s' := s.cores[c].runPt.id, Schedule(s, c);
    PickKeeps(PutBack(s, c), c, t);
    assert t in OwnedBy(s, 1 - c) && OwnedBy(s', 1 - c) == OwnedBy(s, 1 - c);
  }

  /** The first choice stays marked RUNNING and no core runs it. */
  lemma SecondScheduleStrands(s: Sched, c: nat)
    requires Inv(s) && c < 2 && s.cores[c].pending && s.cores[c].nextRunPt.Thread? && s.cores[c].nextRunPt != s.cores[c].runPt
    ensures !Inv(Schedule(s, c))
  {
    var u, s1, p := s.cores[c].nextRunPt.id, PutBack(s, c), BestPriority(PutBack(s, c).activeCnt, 0);
    assert u in OwnedBy(s, c) && u !in OwnedBy(s, 1 - c);
    PutBackPlaced(s, c);
    if p != IDLE_PRIORITY {
      assert RingOk(s1, p, {});
      assert s1.rings[p] != [] && s1.rings[p][0] in s1.rings[p];
      if Choice(s1, p) == u {
        PickedRunning(s1, c, p);
      }
    }
    StillRunning(s, c, u, s1);
  }

  lemma PutBackPlaced(s: Sched, c: nat)
    requires Inv(s) && c < 2
    ensures Placed(PutBack(s, c), {})
  {
    match s.cores[c].runPt
    case Thread(t) => if s.Has(t) && s.threads[t].state == RUNNING { RestatePlaced(s, t, ACTIVE); }
    case _ =>
  }

  /** Picking a thread that already runs leaves the ACTIVE counter one short. */
  lemma PickedRunning(s: Sched, c: nat, p: nat)
    requires Placed(s, {}) && c < 2 && p == BestPriority(s.activeCnt, 0) < IDLE_PRIORITY
    requires s.rings[p] != [] && s.rings[p][0] in s.threads && Choice(s, p) in s.threads && s.threads[Choice(s, p)].state == RUNNING
    ensures !Placed(Pick(s, c), {})
  {
    var s', ring := Pick(s, c), s.rings[p];
    assert RingOk(s, p, {});
    assert s'.threads == s.threads;
    CountAppend(s.threads, ring[1..], [ring[0]], ACTIVE);
    assert Count(s'.threads, s'.rings[p], ACTIVE) == Count(s.threads, ring, ACTIVE) == s'.activeCnt[p] + 1;
    assert Placed(s', {}) ==> RingOk(s', p, {});
  }

  /** If schedule picks anything but u, u runs on in name only. */
  lemma StillRunning(s: Sched, c: nat, u: Tid, s1: Sched)
    requires Inv(s) && c < 2 && s1 == PutBack(s, c) && u in s.threads && s.threads[u].state == RUNNING && s.cores[c].runPt != Thread(u)
    requires u !in OwnedBy(s, 1 - c)
    requires var p := BestPriority(s1.activeCnt, 0);
             p == IDLE_PRIORITY
             || (s1.rings[p] != [] && s1.rings[p][0] in s1.threads && Choice(s1, p) in s1.threads
                 && (Choice(s1, p) == u ==> !Placed(Pick(s1, c), {})))
    ensures !Inv(Schedule(s, c))
  {
    hide RingOk, BlockedOk, SleepersOk, Pick;
    var s' := Schedule(s, c);
    PickKeeps(s1, c, u);
    assert OwnedBy(s', 1 - c) == OwnedBy(s, 1 - c);
  }

  /** Pick touches no thread but the one it chooses. */
  lemma PickKeeps(s: Sched, c: nat, u: Tid)
    requires s.Shape() && c < 2 && u in s.threads
    ensures var p, s' := BestPriority(s.activeCnt, 0), Pick(s, c);
            && s'.cores[1 - c] == s.cores[1 - c]
            && (p == IDLE_PRIORITY ==> s'.cores[c].Owned() == Idle && s'.threads == s.threads)
            && (p < IDLE_PRIORITY && s.rings[p] != [] && s.rings[p][0] in s.threads && Choice(s, p) in s.threads ==>
                  s'.cores[c].Owned() == Thread(Choice(s, p))
                  && u in s'.threads && (u != Choice(s, p) ==> s'.threads[u] == s.threads[u]))
            && (p < IDLE_PRIORITY && (s.rings[p] == [] || s.rings[p][0] !in s.threads || Choice(s, p) !in s.threads) ==> s' == s)
  {
  }

  // ---------------------------------------------------------------- a run that ends badly

  function Created(): Sched
  {
    Initial().(threads := map[1 := Tcb(0, ACTIVE, 0)], rings := [[1], [], [], [], []], activeCnt := [1, 0, 0, 0, 0, 0], lifetime := 1)
  }

  lemma FirstCreated()
    ensures Step(Initial(), Create(0)) == Created()
  {
    var s := Initial();
    assert s.rings == [[], [], [], [], []] && s.activeCnt == [0, 0, 0, 0, 0, 0];
    assert [1] + [] == [1];
    var s1 := Step(s, Create(0));
    assert s1.rings == Created().rings && s1.activeCnt == Created().activeCnt && s1.threads == Created().threads;
  }

  /** Threads 1 and 2 on level 0, none running. */
  function TwoCreated(): Sched
  {
    Created().(threads := map[1 := Tcb(0, ACTIVE, 0), 2 := Tcb(0, ACTIVE, 0)], rings := [[2, 1], [], [], [], []],
               activeCnt := [2, 0, 0, 0, 0, 0], lifetime := 2)
  }

  /** Core 0 runs thread 2. */
  function TwoLaunched(): Sched
  {
    TwoCreated().(threads := map[1 := Tcb(0, ACTIVE, 0), 2 := Tcb(0, RUNNING, 0)], rings := [[1, 2], [], [], [], []],
                  activeCnt := [1, 0, 0, 0, 0, 1], runningCnt := [1, 0, 0, 0, 0],
                  cores := [Core(Thread(2), Unset, false), Core(Unset, Unset, false)])
  }

  /** Core 0 still runs thread 2 and is about to switch to thread 1. */
  function TwoScheduled(): Sched
  {
    TwoLaunched().(threads := map[1 := Tcb(0, RUNNING, 0), 2 := Tcb(0, ACTIVE, 0)], rings := [[2, 1], [], [], [], []],
                   cores := [Core(Thread(2), Thread(1), true), Core(Unset, Unset, false)])
  }

  lemma SecondCreated()
    ensures Step(Created(), Create(0)) == TwoCreated()
  {
    var s1 := Step(Created(), Create(0));
    assert [2] + [1] == [2, 1];
    assert s1.rings == TwoCreated().rings && s1.activeCnt == TwoCreated().activeCnt && s1.threads == TwoCreated().threads;
  }

  lemma FirstOfTwoLaunched()
    ensures Enabled(TwoCreated(), LaunchCore(0)) && Step(TwoCreated(), LaunchCore(0)) == TwoLaunched()
  {
    var s := TwoCreated();
    assert s.cores == [Core(Unset, Unset, false), Core(Unset, Unset, false)] && s.runningCnt == [0, 0, 0, 0, 0];
    assert s.activeCnt[IDLE_PRIORITY := 1] == [2, 0, 0, 0, 0, 1];
    assert BestPriority([2, 0, 0, 0, 0, 1], 0) == 0 && Rotate([2, 1]) == [1, 2];
    var s1 := Step(s, LaunchCore(0));
    assert s1.rings == TwoLaunched().rings && s1.threads == TwoLaunched().threads && s1.cores == TwoLaunched().cores;
    assert s1.activeCnt == TwoLaunched().activeCnt && s1.runningCnt == TwoLaunched().runningCnt;
  }

  lemma TwoPutBack()
    ensures PutBack(TwoLaunched(), 0) == TwoLaunched().(threads := map[1 := Tcb(0, ACTIVE, 0), 2 := Tcb(0, ACTIVE, 0)],
                                                        activeCnt := [2, 0, 0, 0, 0, 1], runningCnt := [0, 0, 0, 0, 0])
  {
    var s, s1 := TwoLaunched(), PutBack(TwoLaunched(), 0);
    assert s1.threads == map[1 := Tcb(0, ACTIVE, 0), 2 := Tcb(0, ACTIVE, 0)];
    assert s1.activeCnt == [2, 0, 0, 0, 0, 1] && s1.runningCnt == [0, 0, 0, 0, 0];
  }

  lemma FirstOfTwoScheduled()
    ensures Enabled(TwoLaunched(), Reschedule(0)) && Step(TwoLaunched(), Reschedule(0)) == TwoScheduled()
  {
    hide PutBack;
    TwoPutBack();
    var s0 := PutBack(TwoLaunched(), 0);
    assert BestPriority([2, 0, 0, 0, 0, 1], 0) == 0 && Rotate([1, 2]) == [2, 1];
    var s1 := Pick(s0, 0);
    assert s1.rings == TwoScheduled().rings && s1.threads == TwoScheduled().threads && s1.cores == TwoScheduled().cores;
    assert s1.activeCnt == TwoScheduled().activeCnt && s1.runningCnt == TwoScheduled().runningCnt;
  }

  /** Two threads and one core are enough: a second schedule strands thread 1, which stays marked RUNNING. */
  lemma SecondScheduleReached()
    ensures After(Initial(), [Create(0), Create(0), LaunchCore(0), Reschedule(0)]) == Some(TwoScheduled())
    ensures Inv(TwoScheduled()) && !Inv(Schedule(TwoScheduled(), 0))
  {
    hide Step, Enabled, Inv;
    var s0, e0, e1, e2, e3 := Initial(), Create(0), Create(0), LaunchCore(0), Reschedule(0);
    assert After(s0, []) == Some(s0);
    FirstCreated();
    SecondCreated();
    FirstOfTwoLaunched();
    FirstOfTwoScheduled();
    CreateEnabled();
    AfterAppend([], e0, s0);
    AfterAppend([] + [e0], e1, Created());
    AfterAppend([] + [e0] + [e1], e2, TwoCreated());
    AfterAppend([] + [e0] + [e1] + [e2], e3, TwoLaunched());
    var run := [e0, e1, e2, e3];
    assert [] + [e0] + [e1] + [e2] + [e3] == run;
    RunInv(run);
    SecondScheduleIff(TwoScheduled(), 0);
  }

  lemma CreateEnabled()
    ensures Enabled(Initial(), Create(0)) && Enabled(Created(), Create(0))
  {
  }
}
