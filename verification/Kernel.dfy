/** The scheduler's globals and the functions of os/schedule.c that update them in place, on the TCBs' links. */
module KernelClass {
  import opened Clock
  import opened RingNodes
  import opened RingSeq
  import opened WaitQueue
  import opened SchedModel
  import opened SchedPlacement
  import opened SchedSafety
  import opened SchedEffects
  import opened SchedStats
  import opened SchedTheorems
  import opened ThreadNodes
  import opened ThreadListsClass

  /** RunPt and NextRunPt. */
  datatype RunRef = Nothing | IdleThread | RunPtBlackHole | Ref(node: Node<Info, Vars>) {
    function Ptr(): RunPtr
    {
      match this
      case Nothing => Unset
      case IdleThread => Idle
      case RunPtBlackHole => BlackHole
      case Ref(node) => Thread(node.info.id)
    }
  }

  class Kernel {
    const lists: ThreadLists
    const activePriorityCount: array<int>
    const runningPriorityCount: array<int>
    const runPt: array<RunRef>
    const nextRunPt: array<RunRef>
    const pendSV: array<bool>
    var lifetimeThreadCount: nat
    var clock: nat
    var sleepAlarm: Alarm
    /** A history counter for arrival order; the code keeps none. */
    var arrivals: nat

    ghost function Repr(): set<object>
      reads lists
    {
      {this, activePriorityCount, runningPriorityCount, runPt, nextRunPt, pendSV} + lists.Repr()
    }

    /** The arrays have their sizes, every list is linked, and a pointer to a TCB in use is that TCB's. */
    ghost predicate Wired()
      reads Repr(), lists.home.Keys
    {
      && activePriorityCount != runningPriorityCount && runPt != nextRunPt
      && activePriorityCount.Length == PRIORITY_LVL_CNT + 1 && runningPriorityCount.Length == PRIORITY_LVL_CNT
      && runPt.Length == 2 && nextRunPt.Length == 2 && pendSV.Length == 2
      && this !in lists.Repr() && activePriorityCount !in lists.Repr() && runningPriorityCount !in lists.Repr()
      && runPt !in lists.Repr() && nextRunPt !in lists.Repr() && pendSV !in lists.Repr()
      && lists.Linked() && |lists.rings| == PRIORITY_LVL_CNT
      && (forall t :: t in lists.live ==> t <= lifetimeThreadCount)
      && (forall c :: 0 <= c < 2 ==> RefOk(runPt[c]) && RefOk(nextRunPt[c]))
    }

    ghost predicate RefOk(r: RunRef)
      reads this, lists
    {
      r.Ref? ==> r.node.info.id <= lifetimeThreadCount && (r.node.info.id in lists.live ==> lists.Live(r.node))
    }

    ghost function CoreAt(c: nat): Core
      requires c < runPt.Length && c < nextRunPt.Length && c < pendSV.Length
      reads runPt, nextRunPt, pendSV
    {
      Core(runPt[c].Ptr(), nextRunPt[c].Ptr(), pendSV[c])
    }

    /** The globals as one value. */
    ghost function Abs(): (s: Sched)
      requires Wired()
      reads Repr(), lists.home.Keys, lists.BlockedNodes(), lists.sleep.Contents
      ensures s.Shape()
    {
      var v := lists.Abs();
      Sched(v.threads, v.rings, activePriorityCount[..], runningPriorityCount[..], v.sleepers, v.blocked,
            [CoreAt(0), CoreAt(1)], lifetimeThreadCount, clock, sleepAlarm, arrivals)
    }

    ghost predicate Valid()
      reads Repr(), lists.home.Keys, lists.BlockedNodes(), lists.sleep.Contents
    {
      Wired() && Inv(Abs())
    }

    constructor ()
      ensures Valid() && Abs() == Initial() && fresh(Repr())
    {
      hide Inv, Wired, Abs, ThreadLists.Linked, ThreadLists.Abs, ThreadLists.Repr;
      activePriorityCount := new int[PRIORITY_LVL_CNT + 1](i => 0);
      runningPriorityCount := new int[PRIORITY_LVL_CNT](i => 0);
      runPt := new RunRef[2](i => Nothing);
      nextRunPt := new RunRef[2](i => Nothing);
      pendSV := new bool[2](i => false);
      lifetimeThreadCount, clock, sleepAlarm, arrivals := 0, 0, Off, 0;
      lists := new ThreadLists();
      new;
      FreshWired();
      FreshAbs();
      InitialInv();
    }

    /** The lists own no part of the other globals. */
    lemma Apart()
      ensures this !in lists.Repr() && activePriorityCount !in lists.Repr() && runningPriorityCount !in lists.Repr()
      ensures runPt !in lists.Repr() && nextRunPt !in lists.Repr() && pendSV !in lists.Repr()
    {
    }

    lemma FreshWired()
      requires activePriorityCount != runningPriorityCount && runPt != nextRunPt
      requires activePriorityCount.Length == PRIORITY_LVL_CNT + 1 && runningPriorityCount.Length == PRIORITY_LVL_CNT
      requires runPt.Length == 2 && nextRunPt.Length == 2 && pendSV.Length == 2
      requires lists.Linked() && |lists.rings| == PRIORITY_LVL_CNT && lists.live == map[]
      requires forall c :: 0 <= c < 2 ==> runPt[c] == nextRunPt[c] == Nothing
      ensures Wired()
    {
      hide ThreadLists.Linked, ThreadLists.Repr;
      Apart();
    }

    lemma FreshAbs()
      requires Wired() && lists.Abs() == View(map[], seq(PRIORITY_LVL_CNT, i => []), [], map[])
      requires forall p :: 0 <= p <= PRIORITY_LVL_CNT ==> activePriorityCount[p] == 0
      requires forall p :: 0 <= p < PRIORITY_LVL_CNT ==> runningPriorityCount[p] == 0
      requires forall c :: 0 <= c < 2 ==> runPt[c] == nextRunPt[c] == Nothing && !pendSV[c]
      requires lifetimeThreadCount == clock == arrivals == 0 && sleepAlarm == Off
      ensures Abs() == Initial()
    {
      hide ThreadLists.Linked, ThreadLists.Abs;
    }

    /** A counter of active threads changes. */
    method CountActive(p: nat, d: int)
      requires Wired() && p <= PRIORITY_LVL_CNT
      modifies activePriorityCount
      ensures Wired() && Abs() == AddActive(old(Abs()), p, d)
    {
      hide ThreadLists.Linked, ThreadLists.Abs;
      activePriorityCount[p] := activePriorityCount[p] + d;
    }

    /** A counter of running threads changes. */
    method CountRunning(p: nat, d: int)
      requires Wired() && p < PRIORITY_LVL_CNT
      modifies runningPriorityCount
      ensures Wired() && Abs() == AddRunning(old(Abs()), p, d)
    {
      hide ThreadLists.Linked, ThreadLists.Abs;
      runningPriorityCount[p] := runningPriorityCount[p] + d;
    }

    /** enqueue_thread: to the front of its ring, ready to run. */
    method EnqueueThread(thread: Node<Info, Vars>)
      requires Wired() && lists.Live(thread) && thread !in lists.home
      modifies lists.Repr(), activePriorityCount
      ensures Wired() && lists.live == old(lists.live) && lists.semaphores == old(lists.semaphores) && lists.Repr() == old(lists.Repr())
      ensures lists.home == old(lists.home)[thread := Ring(thread.info.priority)]
      ensures old(Abs()).Has(thread.info.id) && Abs() == Enqueue(old(Abs()), thread.info.id)
    {
      hide ThreadLists.Linked, ThreadLists.Abs, ThreadLists.Repr;
      lists.Enqueue(thread);
      CountActive(thread.info.priority, 1);
    }

    /** dequeue_thread: out of its ring; the root moves to its successor. Alone on its level, a thread that does
        not run stays the level's root. */
    method DequeueThread(thread: Node<Info, Vars>)
      requires Wired() && lists.Live(thread) && thread.info.priority < PRIORITY_LVL_CNT && RingOk(Abs(), thread.info.priority, {}) && OnRing(thread.item.state)
      modifies lists.Repr(), runningPriorityCount
      ensures thread.next == null && thread.item == old(thread.item)
      ensures lists.live == old(lists.live) && lists.semaphores == old(lists.semaphores) && lists.Repr() == old(lists.Repr())
      ensures old(Abs()).Has(thread.info.id)
      ensures old(thread.item.state) == RUNNING || |old(Abs()).rings[thread.info.priority]| > 1 ==>
                Wired() && thread !in lists.home && Abs() == SchedModel.Dequeue(old(Abs()), thread.info.id)
      ensures old(thread.item.state) == ACTIVE && |old(Abs()).rings[thread.info.priority]| == 1 ==>
                !Wired() && lists.rings[thread.info.priority].root == thread
    {
      hide ThreadLists.Linked, ThreadLists.Abs, ThreadLists.Repr, Removed;
      var priority := thread.info.priority;
      OnItsRing(thread);
      RemovedAlone(Abs().rings[priority], thread.info.id);
      if thread.item.state == RUNNING {
        CountRunning(priority, -1);
      }
      var countersZero := activePriorityCount[priority] == 0 && runningPriorityCount[priority] == 0;
      lists.Dequeue(thread, countersZero);
    }

    /** A thread on a ring is a member, and the counters count it and the others. */
    lemma OnItsRing(thread: Node<Info, Vars>)
      requires Wired() && lists.Live(thread) && thread.info.priority < PRIORITY_LVL_CNT && RingOk(Abs(), thread.info.priority, {}) && OnRing(thread.item.state)
      ensures Abs().Has(thread.info.id) && Abs().threads[thread.info.id].state == thread.item.state
      ensures Abs().threads[thread.info.id].priority == thread.info.priority
      ensures var p := thread.info.priority;
              && p < |lists.rings| && thread in lists.rings[p].Contents && thread in lists.home && lists.home[thread] == Ring(p)
              && |lists.rings[p].Contents| == |Abs().rings[p]| == activePriorityCount[p] + runningPriorityCount[p]
              && (thread.item.state == ACTIVE ==> activePriorityCount[p] > 0)
              && (thread.item.state == RUNNING ==> runningPriorityCount[p] > 0 && activePriorityCount[p] >= 0)
    {
      hide ThreadLists.Linked, ThreadLists.Repr, RingOk, Inv;
      lists.TcbOf(thread);
      lists.LinkedBase();
      RingCounts(Abs(), thread.info.id);
      lists.RingMember(thread.info.priority, thread);
      lists.RingHome(thread.info.priority, thread);
    }

    /** The first part of schedule: a running thread becomes active again. */
    method PutBackThread(cpu: nat)
      requires Wired() && cpu < 2 && RunsLive(cpu) && (runPt[cpu].Ref? ==> HomeIfRunning(runPt[cpu].node))
      modifies lists.Repr(), activePriorityCount, runningPriorityCount
      ensures Wired() && lists.live == old(lists.live) && lists.Repr() == old(lists.Repr()) && RunsLive(cpu)
      ensures Abs() == PutBack(old(Abs()), cpu)
    {
      hide ThreadLists.Linked, ThreadLists.Abs, ThreadLists.Repr;
      if runPt[cpu].Ref? {
        var thread := runPt[cpu].node;
        lists.TcbOf(thread);
        if thread.item.state == RUNNING {
          StopThread(thread);
        }
      }
    }

    /** A running thread counts as active from now on. */
    method StopThread(thread: Node<Info, Vars>)
      requires Wired() && lists.Live(thread) && thread in lists.home && lists.home[thread].Ring?
      modifies lists.Repr(), activePriorityCount, runningPriorityCount
      ensures Wired() && lists.live == old(lists.live) && lists.Repr() == old(lists.Repr())
      ensures old(Abs()).Has(thread.info.id) && thread.info.priority == old(Abs()).threads[thread.info.id].priority
      ensures Abs() == AddRunning(AddActive(SchedModel.SetState(old(Abs()), thread.info.id, ACTIVE), thread.info.priority, 1), thread.info.priority, -1)
    {
      hide ThreadLists.Linked, ThreadLists.Abs, ThreadLists.Repr;
      lists.LinkedBase();
      lists.SetState(thread, ACTIVE);
      CountActive(thread.info.priority, 1);
      CountRunning(thread.info.priority, -1);
    }

    /** RunPt, if it names a TCB, names one in use. */
    ghost predicate RunsLive(cpu: nat)
      requires cpu < runPt.Length
      reads lists, runPt
    {
      runPt[cpu].Ref? ==> lists.Live(runPt[cpu].node)
    }

    ghost predicate HomeIfRunning(thread: Node<Info, Vars>)
      reads lists, thread`item
    {
      thread.item.state == RUNNING ==> thread in lists.home && lists.home[thread].Ring?
    }

    /** A thread that is in its place, once put back, is on its ring. */
    lemma RunningHome(cpu: nat)
      requires Wired() && cpu < 2 && RunsLive(cpu) && Placed(PutBack(Abs(), cpu), {})
      ensures runPt[cpu].Ref? ==> HomeIfRunning(runPt[cpu].node)
    {
      hide ThreadLists.Linked, ThreadLists.Abs, ThreadLists.Repr;
      if runPt[cpu].Ref? && runPt[cpu].node.item.state == RUNNING {
        var thread := runPt[cpu].node;
        lists.TcbOf(thread);
        lists.LinkedBase();
        assert RingOk(PutBack(Abs(), cpu), thread.info.priority, {});
        lists.RingHome(thread.info.priority, thread);
      }
    }

    /** The search for the first level with an active thread; the idle level always has one. */
    method FindPriority() returns (pri: nat)
      requires Wired() && activePriorityCount[IDLE_PRIORITY] != 0
      ensures pri == BestPriority(activePriorityCount[..], 0)
      ensures Wired() && Abs() == old(Abs())
    {
      pri := 0;
      while activePriorityCount[pri] == 0
        invariant pri <= IDLE_PRIORITY
        invariant BestPriority(activePriorityCount[..], 0) == BestPriority(activePriorityCount[..], pri)
        decreases IDLE_PRIORITY - pri
      {
        pri := pri + 1;
      }
    }

    /** The thread schedule takes from a level: the root, which then moves on, or the TCB after it. */
    method ChooseFrom(pri: nat) returns (next: Node<Info, Vars>)
      requires Wired() && pri < PRIORITY_LVL_CNT && Abs().rings[pri] != []
      modifies lists.Repr()
      ensures Wired() && lists.live == old(lists.live) && lists.home == old(lists.home) && lists.Repr() == old(lists.Repr())
      ensures lists.Live(next) && next in lists.home && lists.home[next] == Ring(pri)
      ensures old(Abs()).rings[pri][0] in old(Abs()).threads && next.info.id == Choice(old(Abs()), pri)
      ensures Abs() == if old(Abs()).threads[old(Abs()).rings[pri][0]].state == RUNNING then old(Abs())
                       else SetRing(old(Abs()), pri, Rotate(old(Abs()).rings[pri]))
    {
      hide ThreadLists.Linked, ThreadLists.Abs, ThreadLists.Repr;
      lists.RootOf(pri);
      next := lists.rings[pri].root;
      lists.TcbOf(next);
      if next.item.state == RUNNING {
        next := next.next;
      } else {
        lists.Advance(pri);
      }
    }

    /** A chosen thread counts as running from now on. */
    method StartThread(pri: nat, thread: Node<Info, Vars>)
      requires Wired() && pri < PRIORITY_LVL_CNT && lists.Live(thread) && thread in lists.home && lists.home[thread].Ring?
      modifies lists.Repr(), activePriorityCount, runningPriorityCount
      ensures Wired() && lists.live == old(lists.live) && lists.Repr() == old(lists.Repr())
      ensures thread.info.id in old(Abs()).threads && Abs() == Start(old(Abs()), pri, thread.info.id)
    {
      hide ThreadLists.Linked, ThreadLists.Abs, ThreadLists.Repr;
      lists.SetState(thread, RUNNING);
      CountActive(pri, -1);
      CountRunning(pri, 1);
    }

    /** Set NextRunPt and trigger PendSV. */
    method RequestSwitch(cpu: nat, next: RunRef)
      requires Wired() && cpu < 2 && RefOk(next)
      modifies nextRunPt, pendSV
      ensures Wired() && Abs() == SetCore(old(Abs()), cpu, old(Abs()).cores[cpu].(nextRunPt := next.Ptr(), pending := true))
    {
      hide ThreadLists.Linked, ThreadLists.Abs, ThreadLists.Repr;
      nextRunPt[cpu] := next;
      pendSV[cpu] := true;
    }

    /** Set RunPt, with no switch pending. */
    method SetRunPt(cpu: nat, run: RunRef)
      requires Wired() && cpu < 2 && RefOk(run)
      modifies runPt, pendSV
      ensures Wired() && Abs() == SetCore(old(Abs()), cpu, old(Abs()).cores[cpu].(runPt := run.Ptr(), pending := false))
    {
      hide ThreadLists.Linked, ThreadLists.Abs, ThreadLists.Repr;
      runPt[cpu] := run;
      pendSV[cpu] := false;
    }

    /** The second part of schedule: find the best level, choose, request the switch. */
    method PickThread(cpu: nat)
      requires Wired() && cpu < 2 && Between(Abs(), cpu)
      modifies Repr()
      ensures Valid() && Abs() == Pick(old(Abs()), cpu) && Repr() == old(Repr())
      ensures Picks(old(Abs()), old(Abs()).threads, Abs(), cpu)
    {
      hide Picks, Inv, Between, PickedBest, BestPriority, Choice, Rotate, Start, ThreadLists.Linked, ThreadLists.Abs, ThreadLists.Repr;
      ghost var s := Abs();
      BetweenPlaced(s, cpu);
      PickInv(s, cpu);
      PickHasEffect(s, cpu);
      var pri := FindPriority();
      if pri == IDLE_PRIORITY {
        RequestSwitch(cpu, IdleThread);
      } else {
        ChoiceIsActive(s, cpu, pri);
        var next := TakeThread(pri);
        RequestSwitch(cpu, Ref(next));
      }
    }

    /** The thread of a level that schedule picks runs from now on. */
    method TakeThread(pri: nat) returns (next: Node<Info, Vars>)
      requires Wired() && pri < PRIORITY_LVL_CNT && Abs().rings[pri] != []
      modifies lists.Repr(), activePriorityCount, runningPriorityCount
      ensures Wired() && lists.Live(next) && lists.Repr() == old(lists.Repr())
      ensures var s := old(Abs());
              && s.rings[pri][0] in s.threads && next.info.id == Choice(s, pri) && Choice(s, pri) in s.threads
              && Abs() == Start(if s.threads[s.rings[pri][0]].state == RUNNING then s else SetRing(s, pri, Rotate(s.rings[pri])), pri, next.info.id)
    {
      hide ThreadLists.Linked, ThreadLists.Abs, ThreadLists.Repr, Choice, Rotate, Start;
      next := ChooseFrom(pri);
      StartThread(pri, next);
    }

    /** schedule: put the running thread back and pick the next. */
    method DoSchedule(cpu: nat)
      requires Wired() && cpu < 2 && RunsLive(cpu) && Between(PutBack(Abs(), cpu), cpu)
      modifies Repr()
      ensures Valid() && Abs() == Schedule(old(Abs()), cpu) && Repr() == old(Repr())
      ensures Rescheduled(old(Abs()), Abs(), cpu)
    {
      hide Rescheduled, Picks, Inv, Between, PutBack, Pick, ThreadLists.Linked, ThreadLists.Abs, ThreadLists.Repr;
      BetweenPlaced(PutBack(Abs(), cpu), cpu);
      ScheduleHasEffect(Abs(), cpu);
      RunningHome(cpu);
      PutBackThread(cpu);
      PickThread(cpu);
    }

    /** schedule, called on a core with no switch pending. */
    method Reschedule(cpu: nat)
      requires Valid() && cpu < 2 && runPt[cpu] != Nothing && !pendSV[cpu]
      modifies Repr()
      ensures Valid() && Abs() == Schedule(old(Abs()), cpu) && Repr() == old(Repr())
      ensures Enabled(old(Abs()), Event.Reschedule(cpu)) && Effect(old(Abs()), Event.Reschedule(cpu), Abs())
    {
      hide Effect, Rescheduled, Inv, Between, ThreadLists.Linked, ThreadLists.Abs, ThreadLists.Repr;
      StepHasEffect(Abs(), Event.Reschedule(cpu));
      PutBackBetween(Abs(), cpu);
      OwnedIsLive(cpu);
      DoSchedule(cpu);
    }

    /** A core with no switch pending runs a thread in use. */
    lemma OwnedIsLive(cpu: nat)
      requires Valid() && cpu < 2 && !pendSV[cpu]
      ensures RunsLive(cpu)
      ensures runPt[cpu].Ref? ==> runPt[cpu].node.item.state == RUNNING && HomeIfRunning(runPt[cpu].node)
    {
      hide Inv, ThreadLists.Linked, ThreadLists.Repr;
      if runPt[cpu].Ref? {
        var thread := runPt[cpu].node;
        RunsOnRing(Abs(), cpu);
        lists.TcbOf(thread);
        lists.LinkedBase();
        lists.RingHome(thread.info.priority, thread);
      }
    }

    /** The thread that makes a call. */
    lemma CallerOk(cpu: nat)
      requires Valid() && cpu < 2 && !pendSV[cpu] && runPt[cpu].Ref?
      ensures SelfCall(Abs(), cpu) && RunsLive(cpu)
      ensures var thread := runPt[cpu].node;
              thread.item.state == RUNNING && thread.info.priority < PRIORITY_LVL_CNT && RingOk(Abs(), thread.info.priority, {})
    {
      hide Inv, RingOk, ThreadLists.Linked, ThreadLists.Repr;
      OwnedIsLive(cpu);
      lists.TcbOf(runPt[cpu].node);
      lists.LinkedBase();
      RunsOnRing(Abs(), cpu);
    }

    /** The first thread of a core: the root of the best level, whatever its state. */
    method InitScheduler(cpu: nat)
      requires Valid() && cpu < 2 && runPt[cpu] == Nothing
      modifies Repr()
      ensures Valid() && Abs() == Launch(old(Abs()), cpu) && Repr() == old(Repr())
      ensures Enabled(old(Abs()), LaunchCore(cpu)) && Effect(old(Abs()), LaunchCore(cpu), Abs())
    {
      hide Effect, Inv, PickedBest, BestPriority, Rotate, Start, ThreadLists.Linked, ThreadLists.Abs, ThreadLists.Repr;
      ghost var s := Abs();
      LaunchInv(s, cpu);
      StepHasEffect(s, LaunchCore(cpu));
      var pri := FirstPriority();
      if pri == IDLE_PRIORITY {
        SetRunPt(cpu, IdleThread);
      } else {
        RootNotRunning(s, cpu, pri);
        var first := TakeFirst(pri);
        SetRunPt(cpu, Ref(first));
      }
    }

    /** The idle thread counts as active, which ends the search. */
    method FirstPriority() returns (pri: nat)
      requires Wired()
      modifies activePriorityCount
      ensures Wired() && Abs() == old(Abs()).(activeCnt := old(Abs()).activeCnt[IDLE_PRIORITY := 1])
      ensures pri == BestPriority(Abs().activeCnt, 0)
    {
      hide BestPriority, ThreadLists.Linked, ThreadLists.Abs, ThreadLists.Repr;
      CountActive(IDLE_PRIORITY, 1 - activePriorityCount[IDLE_PRIORITY]);
      pri := FindPriority();
    }

    /** The root of a level, which then moves on. */
    method TakeRoot(pri: nat) returns (first: Node<Info, Vars>)
      requires Wired() && pri < PRIORITY_LVL_CNT && Abs().rings[pri] != []
      modifies lists.Repr()
      ensures Wired() && lists.live == old(lists.live) && lists.home == old(lists.home) && lists.Repr() == old(lists.Repr())
      ensures lists.Live(first) && first in lists.home && lists.home[first] == Ring(pri)
      ensures first.info.id == old(Abs()).rings[pri][0] && Abs() == SetRing(old(Abs()), pri, Rotate(old(Abs()).rings[pri]))
    {
      hide ThreadLists.Linked, ThreadLists.Abs, ThreadLists.Repr;
      lists.RootOf(pri);
      first := lists.rings[pri].root;
      lists.Advance(pri);
    }

    /** The root of a level runs from now on. */
    method TakeFirst(pri: nat) returns (first: Node<Info, Vars>)
      requires Wired() && pri < PRIORITY_LVL_CNT && Abs().rings[pri] != []
      modifies lists.Repr(), activePriorityCount, runningPriorityCount
      ensures Wired() && lists.Live(first) && lists.Repr() == old(lists.Repr())
      ensures var s := old(Abs());
              && first.info.id == s.rings[pri][0] && first.info.id in s.threads
              && Abs() == Start(SetRing(s, pri, Rotate(s.rings[pri])), pri, first.info.id)
    {
      hide ThreadLists.Linked, ThreadLists.Abs, ThreadLists.Repr, Rotate, Start;
      first := TakeRoot(pri);
      StartThread(pri, first);
    }

    /** pendSV_handler, as far as RunPt is concerned. */
    method PendSVHandler(cpu: nat)
      requires Valid() && cpu < 2 && pendSV[cpu]
      modifies runPt, pendSV
      ensures Valid() && Abs() == PendSV(old(Abs()), cpu) && Repr() == old(Repr())
    {
      hide Inv, ThreadLists.Linked, ThreadLists.Abs, ThreadLists.Repr;
      SwitchInv(Abs(), cpu);
      SetRunPt(cpu, nextRunPt[cpu]);
    }

    /** add_thread: gotTcb and gotStack say whether malloc had memory. held: the call returns with the scheduler's
        lock held and interrupts off. */
    method AddThread(priority: nat, gotTcb: bool, gotStack: bool) returns (code: nat, held: bool)
      requires Valid()
      modifies Repr()
      ensures code == if priority < PRIORITY_LVL_CNT && gotTcb && gotStack then 0 else 1
      ensures held <==> priority >= PRIORITY_LVL_CNT
      ensures Valid() && Abs() == if code == 0 then SchedModel.AddThread(old(Abs()), priority) else old(Abs())
      ensures code == 0 ==> Created(old(Abs()), Abs(), priority)
      ensures fresh(Repr() - old(Repr()))
    {
      if priority >= PRIORITY_LVL_CNT {
        return 1, true;
      }
      if !gotTcb || !gotStack {
        return 1, false;
      }
      CreateThread(priority);
      return 0, false;
    }

    /** A new thread with the next id. */
    method CreateThread(priority: nat)
      requires Valid() && priority < PRIORITY_LVL_CNT
      modifies Repr()
      ensures Valid() && Abs() == SchedModel.AddThread(old(Abs()), priority) && fresh(Repr() - old(Repr()))
      ensures Created(old(Abs()), Abs(), priority)
    {
      hide Created, Inv, SchedModel.Enqueue, ThreadLists.Linked, ThreadLists.Abs, ThreadLists.Repr;
      CreateInv(Abs(), priority);
      CreateHasEffect(Abs(), priority);
      lifetimeThreadCount := lifetimeThreadCount + 1;
      var thread := lists.Create(lifetimeThreadCount, priority);
      EnqueueThread(thread);
    }

    /** init_semaphore, on a semaphore that is new or has no waiters: nobody is blocked on it. */
    method InitSemaphore(sem: nat)
      requires Valid() && (sem in lists.semaphores ==> lists.semaphores[sem].root == null)
      modifies Repr()
      ensures Valid() && sem in lists.semaphores && Abs() == InitBlocked(old(Abs()), sem) && fresh(Repr() - old(Repr()))
    {
      hide Inv, ThreadLists.Linked, ThreadLists.Abs, ThreadLists.Repr;
      SemaphoreHead(sem);
      InitSemaphoreIff(Abs(), sem);
      if sem in lists.semaphores {
        lists.SemaphoreOwned(sem);
        lists.ClearRoot(sem);
        assert Abs().blocked == old(Abs()).blocked[sem := []];
      } else {
        lists.AddSemaphore(sem);
      }
    }

    /** What the root of a semaphore's list says. */
    lemma SemaphoreHead(sem: nat)
      requires Wired()
      ensures sem in lists.semaphores <==> sem in Abs().blocked
      ensures sem in lists.semaphores ==> (lists.semaphores[sem].root == null <==> Abs().Blocked(sem) == [])
    {
      hide ThreadLists.Linked;
      lists.LinkedBase();
      if sem in lists.semaphores { lists.HeadOf(lists.semaphores[sem], Block(sem)); }
    }

    /** The clock goes on. */
    method PassTime(time: nat)
      requires Valid()
      modifies `clock
      ensures Valid() && Abs() == old(Abs()).(now := old(Abs()).now + time) && Repr() == old(Repr())
    {
      hide Inv, ThreadLists.Linked, ThreadLists.Abs, ThreadLists.Repr;
      ClockInv(Abs(), Abs().(now := clock + time));
      clock := clock + time;
    }

    /** The clock reaches the alarm's time, or has passed it: its interrupt is pending. */
    method RingAlarm()
      requires Valid() && sleepAlarm.Armed? && sleepAlarm.at <= clock
      modifies `sleepAlarm
      ensures Valid() && Abs() == old(Abs()).(alarm := Fired) && Repr() == old(Repr())
    {
      hide Inv, ThreadLists.Linked, ThreadLists.Abs, ThreadLists.Repr;
      ClockInv(Abs(), Abs().(alarm := Fired));
      sleepAlarm := Fired;
    }

    /** sched_block on the core of the calling thread, with the schedule that ends it. */
    method SchedBlock(cpu: nat, sem: nat)
      requires Valid() && cpu < 2 && !pendSV[cpu] && runPt[cpu].Ref? && sem in lists.semaphores
      modifies Repr()
      ensures SelfCall(old(Abs()), cpu) && Valid() && Abs() == Schedule(BlockSection(old(Abs()), cpu, sem), cpu) && Repr() == old(Repr())
      ensures Enabled(old(Abs()), BlockSelf(cpu, sem)) && Effect(old(Abs()), BlockSelf(cpu, sem), Abs())
    {
      hide Effect, Rescheduled, Inv, Between, ThreadLists.Linked, ThreadLists.Abs, ThreadLists.Repr, Schedule, PutBack;
      CallerOk(cpu);
      SemaphoreHead(sem);
      BlockBetween(Abs(), cpu, sem);
      StepHasEffect(Abs(), BlockSelf(cpu, sem));
      BlockThread(runPt[cpu].node, sem);
      DoSchedule(cpu);
    }

    /** The thread leaves its ring for a semaphore's list. */
    method BlockThread(thread: Node<Info, Vars>, sem: nat)
      requires Wired() && sem in lists.semaphores && OnRingAlive(thread)
      modifies lists.Repr(), runningPriorityCount, `arrivals
      ensures Wired() && lists.live == old(lists.live) && lists.Repr() == old(lists.Repr())
      ensures old(Abs()).Has(thread.info.id)
      ensures Abs() == BlockOn(SchedModel.Dequeue(old(Abs()), thread.info.id), thread.info.id, sem)
    {
      hide ThreadLists.Linked, ThreadLists.Abs, ThreadLists.Repr, SchedModel.Dequeue, Insert, RingOk;
      DequeueThread(thread);
      lists.Park(sem, thread, arrivals);
      arrivals := arrivals + 1;
    }

    /** A running thread in use, on a ring whose counters are right. */
    ghost predicate OnRingAlive(thread: Node<Info, Vars>)
      requires Wired()
      reads Repr(), lists.home.Keys, lists.BlockedNodes(), lists.sleep.Contents, thread
    {
      && lists.Live(thread) && thread.item.state == RUNNING && thread.info.priority < PRIORITY_LVL_CNT
      && RingOk(Abs(), thread.info.priority, {})
    }

    /** sched_unblock: the first waiter becomes ready. */
    method SchedUnblock(sem: nat)
      requires Valid() && sem in lists.semaphores && lists.semaphores[sem].root != null
      modifies Repr()
      ensures old(Abs()).Blocked(sem) != [] && old(Abs()).Has(old(Abs()).Blocked(sem)[0].id)
      ensures Valid() && Abs() == Unblock(old(Abs()), sem) && Repr() == old(Repr()) && Signalled(old(Abs()), Abs(), sem)
    {
      hide Signalled, Inv, ThreadLists.Linked, ThreadLists.Abs, ThreadLists.Repr, SchedModel.Enqueue;
      ghost var s := Abs();
      var thread := lists.TakeBlocked(sem);
      SignalInv(s, sem);
      SignalHasEffect(s, sem);
      EnqueueThread(thread);
    }

    /** sleep on the core of the calling thread, with the schedule that ends it; sleep(0) returns. */
    method Sleep(cpu: nat, ms: nat)
      requires Valid() && cpu < 2 && !pendSV[cpu] && runPt[cpu].Ref?
      modifies Repr()
      ensures SelfCall(old(Abs()), cpu) && Repr() == old(Repr())
      ensures Valid() && Abs() == if ms == 0 then old(Abs()) else Schedule(SleepSection(old(Abs()), cpu, ms), cpu)
      ensures ms > 0 ==> Enabled(old(Abs()), SleepSelf(cpu, ms)) && Effect(old(Abs()), SleepSelf(cpu, ms), Abs())
    {
      hide Effect, Rescheduled, Inv, Between, ThreadLists.Linked, ThreadLists.Abs, ThreadLists.Repr, Schedule, PutBack;
      CallerOk(cpu);
      if ms == 0 { return; }
      SleepBetween(Abs(), cpu, ms);
      StepHasEffect(Abs(), SleepSelf(cpu, ms));
      SleepThread(runPt[cpu].node, TickAfter(clock, ms));
      DoSchedule(cpu);
    }

    /** The thread leaves its ring for the sleep list, and the alarm is armed if it is the first. */
    method SleepThread(thread: Node<Info, Vars>, tick: nat)
      requires Wired() && OnRingAlive(thread)
      modifies lists.Repr(), runningPriorityCount, `arrivals, `sleepAlarm
      ensures Wired() && lists.live == old(lists.live) && lists.Repr() == old(lists.Repr())
      ensures old(Abs()).Has(thread.info.id)
      ensures Abs() == SleepOn(SchedModel.Dequeue(old(Abs()), thread.info.id), thread.info.id, tick)
    {
      hide ThreadLists.Linked, ThreadLists.Abs, ThreadLists.Repr, SchedModel.Dequeue, Insert, RingOk;
      OnItsRing(thread);
      TickKeepsRing(Abs(), thread.info.id, tick);
      lists.SetTick(thread, tick);
      DequeueThread(thread);
      JoinSleepers(thread);
    }

    /** The rest of sleep's section. */
    method JoinSleepers(thread: Node<Info, Vars>)
      requires Wired() && lists.Live(thread) && thread !in lists.home && thread.next == null
      modifies lists.Repr(), `arrivals, `sleepAlarm
      ensures Wired() && lists.live == old(lists.live) && lists.Repr() == old(lists.Repr())
      ensures thread.info.id in old(Abs()).threads
      ensures Abs() == SleepOn(old(Abs()), thread.info.id, old(thread.item.resumeTick))
    {
      hide ThreadLists.Linked, ThreadLists.Abs, ThreadLists.Repr, Insert;
      SleepHead();
      var tick := thread.item.resumeTick;
      if lists.sleep.root == null || tick < lists.sleep.root.item.resumeTick {
        sleepAlarm := Rearmed(sleepAlarm, tick);
      }
      lists.PutToSleep(thread, arrivals);
      arrivals := arrivals + 1;
    }

    /** What the root of the sleep list says. */
    lemma SleepHead()
      requires Wired()
      ensures lists.sleep.root == null <==> Abs().sleepers == []
      ensures lists.sleep.root != null ==> lists.sleep.root.item.resumeTick == Abs().sleepers[0].key
    {
      hide ThreadLists.Linked;
      lists.LinkedBase();
      lists.HeadOf(lists.sleep, Home.Sleep);
    }

    /** unsleep: wake the first sleeper and arm the alarm for the next. */
    method Unsleep(compareTime: nat, armTime: nat)
      requires Valid() && sleepAlarm == Fired && clock <= compareTime <= armTime
      modifies Repr()
      ensures old(Abs()).sleepers != [] && old(Abs()).Has(old(Abs()).sleepers[0].id)
      ensures Valid() && Abs() == SchedModel.Unsleep(old(Abs()), compareTime, armTime) && Repr() == old(Repr())
      ensures Woken(old(Abs()), Abs(), compareTime, armTime)
    {
      hide Woken, Inv, ThreadLists.Linked, ThreadLists.Abs, ThreadLists.Repr, SchedModel.Enqueue;
      UnsleepInv(Abs(), compareTime, armTime);
      UnsleepHasEffect(Abs(), compareTime, armTime);
      var thread := NextSleeper(compareTime, armTime);
      EnqueueThread(thread);
    }

    /** The first sleeper leaves the list, and the alarm is set for the one after it. */
    method NextSleeper(compareTime: nat, armTime: nat) returns (thread: Node<Info, Vars>)
      requires Wired() && Abs().sleepers != []
      modifies lists.Repr(), `sleepAlarm, `clock
      ensures Wired() && lists.Live(thread) && thread !in lists.home && lists.live == old(lists.live) && lists.Repr() == old(lists.Repr())
      ensures lists.semaphores == old(lists.semaphores) && thread.info.id == old(Abs()).sleepers[0].id
      ensures var s, rest := old(Abs()), old(Abs()).sleepers[1..];
              Abs() == s.(sleepers := rest, now := armTime,
                          alarm := if rest == [] then Off
                                   else if rest[0].key < compareTime + 10 then Armed(armTime + 10) else Armed(rest[0].key))
    {
      hide ThreadLists.Linked, ThreadLists.Abs, ThreadLists.Repr;
      SleepHead();
      thread := lists.TakeSleeper();
      SetNextAlarm(compareTime, armTime);
    }

    /** The alarm is set for the first sleeper left, at the earliest ten microseconds on. */
    method SetNextAlarm(compareTime: nat, armTime: nat)
      requires Wired()
      modifies `sleepAlarm, `clock
      ensures Wired()
      ensures var s := old(Abs());
              Abs() == s.(now := armTime,
                          alarm := if s.sleepers == [] then Off
                                   else if s.sleepers[0].key < compareTime + 10 then Armed(armTime + 10) else Armed(s.sleepers[0].key))
    {
      hide ThreadLists.Linked, ThreadLists.Abs, ThreadLists.Repr;
      SleepHead();
      sleepAlarm := Off;
      if lists.sleep.root != null {
        if lists.sleep.root.item.resumeTick < compareTime + 10 {
          sleepAlarm := Armed(armTime + 10);
        } else {
          sleepAlarm := Armed(lists.sleep.root.item.resumeTick);
        }
      }
      clock := armTime;
    }

    /** kill on the core of the calling thread, with the schedule that ends it. */
    method Kill(cpu: nat)
      requires Valid() && cpu < 2 && !pendSV[cpu] && runPt[cpu].Ref?
      modifies Repr()
      ensures SelfCall(old(Abs()), cpu) && Valid() && Abs() == Schedule(KillSection(old(Abs()), cpu), cpu) && Repr() <= old(Repr())
      ensures Enabled(old(Abs()), KillSelf(cpu)) && Effect(old(Abs()), KillSelf(cpu), Abs())
    {
      hide Effect, Rescheduled, Inv, Between, ThreadLists.Linked, ThreadLists.Abs, ThreadLists.Repr, Schedule, PutBack;
      CallerOk(cpu);
      KillBetween(Abs(), cpu);
      StepHasEffect(Abs(), KillSelf(cpu));
      RemoveCaller(cpu);
      DoSchedule(cpu);
    }

    /** The caller leaves its ring and is freed, and RunPt points to the stub. */
    method RemoveCaller(cpu: nat)
      requires Wired() && cpu < 2 && runPt[cpu].Ref? && OnRingAlive(runPt[cpu].node) && SelfCall(Abs(), cpu)
      modifies lists.Repr(), runningPriorityCount, runPt
      ensures Wired() && runPt[cpu] == RunPtBlackHole && Abs() == KillSection(old(Abs()), cpu)
      ensures lists.Repr() <= old(lists.Repr())
    {
      hide ThreadLists.Linked, ThreadLists.Abs, ThreadLists.Repr, SchedModel.Dequeue, RingOk;
      var thread := runPt[cpu].node;
      DequeueThread(thread);
      lists.Forget(thread);
      PointAway(cpu);
    }

    method PointAway(cpu: nat)
      requires Wired() && cpu < 2
      modifies runPt
      ensures Wired() && runPt[cpu] == RunPtBlackHole
      ensures Abs() == SetCore(old(Abs()), cpu, old(Abs()).cores[cpu].(runPt := BlackHole))
    {
      hide ThreadLists.Linked, ThreadLists.Abs, ThreadLists.Repr;
      runPt[cpu] := RunPtBlackHole;
    }

    /** scheduler_stats: running, active and ever created threads. */
    method Stats() returns (running: int, active: int, lifetime: nat)
      requires Valid()
      ensures Valid() && IsStats(Abs(), running, active, lifetime)
    {
      hide Inv, Abs, RefOk, ThreadLists.Linked, ThreadLists.Abs, ThreadLists.Repr;
      running, active := 0, 0;
      for i := 0 to PRIORITY_LVL_CNT
        invariant running == SumFirst(runningPriorityCount[..], i)
        invariant active == SumFirst(activePriorityCount[..], i)
      {
        running := running + runningPriorityCount[i];
        active := active + activePriorityCount[i];
      }
      lifetime := lifetimeThreadCount;
      SumsExact();
    }

    lemma SumsExact()
      requires Valid()
      ensures IsStats(Abs(), SumFirst(runningPriorityCount[..], PRIORITY_LVL_CNT),
                      SumFirst(activePriorityCount[..], PRIORITY_LVL_CNT), lifetimeThreadCount)
    {
      hide Inv, RefOk, ThreadLists.Linked, ThreadLists.Abs, ThreadLists.Repr, SumFirst, InState, OwnedBy;
      StatsExact(Abs());
    }

    /** The list a thread's state says it is in. */
    ghost function HomeOf(t: SchedModel.Tcb): Home
    {
      match t.state
      case SLEEPING => Home.Sleep
      case BLOCKED(sem) => Block(sem)
      case _ => Ring(t.priority)
    }

    /** Each TCB in use is linked into exactly one list, the one its state says: no other list has it. */
    lemma OneListEach(thread: Node<Info, Vars>, h: Home)
      requires Valid() && lists.Live(thread)
      ensures thread.info.id in Abs().threads
      ensures lists.Exists(HomeOf(Abs().threads[thread.info.id]))
      ensures lists.Exists(h) ==> (thread in lists.Members(h) <==> h == HomeOf(Abs().threads[thread.info.id]))
    {
      hide Inv, Placed, ThreadLists.Linked, ThreadLists.Repr;
      lists.TcbOf(thread);
      lists.LinkedBase();
      lists.BlockedKeys();
      InvPlaced(Abs());
      PlaceOfState(Abs(), thread.info.id);
      if lists.Exists(h) {
        lists.MemberIffId(h, thread);
        match h
        case Block(sem) => assert Abs().Blocked(sem) == Abs().blocked[sem];
        case _ =>
      }
    }
  }

  /** A thread's state says which sequence it is in, and it is in no other. */
  lemma PlaceOfState(s: Sched, t: Tid)
    requires Placed(s, {}) && t in s.threads
    ensures s.Shape()
    ensures forall p: nat :: p < PRIORITY_LVL_CNT ==> (t in s.rings[p] <==> s.threads[t].priority == p && OnRing(s.threads[t].state))
    ensures Waits(s.sleepers, t) <==> s.threads[t].state == SLEEPING
    ensures forall sem: nat :: Waits(s.Blocked(sem), t) <==> s.threads[t].state == BLOCKED(sem)
    ensures s.threads[t].state.BLOCKED? ==> s.threads[t].state.sem in s.blocked
  {
    hide Placed;
    PlacedShape(s);
    forall p: nat | p < PRIORITY_LVL_CNT
      ensures t in s.rings[p] <==> s.threads[t].priority == p && OnRing(s.threads[t].state)
    {
      RingPlace(s, p);
    }
    SleepPlace(s);
    forall sem: nat ensures Waits(s.Blocked(sem), t) <==> s.threads[t].state == BLOCKED(sem) { BlockedPlace(s, sem); }
  }

  lemma PlacedShape(s: Sched)
    requires Placed(s, {})
    ensures s.Shape()
  {
  }

  /** resume_tick can be set before or after the thread leaves its ring. */
  lemma TickKeepsRing(s: Sched, t: Tid, tick: nat)
    requires s.Shape() && s.Has(t)
    ensures var s' := s.(threads := s.threads[t := s.threads[t].(resumeTick := tick)]);
            && (RingOk(s, s.threads[t].priority, {}) ==> RingOk(s', s.threads[t].priority, {}))
            && SleepOn(SchedModel.Dequeue(s', t), t, tick) == SleepOn(SchedModel.Dequeue(s, t), t, tick)
  {
    hide RingOk;
    var s' := s.(threads := s.threads[t := s.threads[t].(resumeTick := tick)]);
    if RingOk(s, s.threads[t].priority, {}) { TickKeepsCounts(s, t, tick); }
    assert s'.threads[t := s'.threads[t].(state := SLEEPING)] == s.threads[t := s.threads[t].(state := SLEEPING, resumeTick := tick)];
  }

  lemma TickKeepsCounts(s: Sched, t: Tid, tick: nat)
    requires s.Shape() && s.Has(t) && RingOk(s, s.threads[t].priority, {})
    ensures RingOk(s.(threads := s.threads[t := s.threads[t].(resumeTick := tick)]), s.threads[t].priority, {})
  {
    var s', ring := s.(threads := s.threads[t := s.threads[t].(resumeTick := tick)]), s.rings[s.threads[t].priority];
    CountFrame(s.threads, s'.threads, ring, ACTIVE);
    CountFrame(s.threads, s'.threads, ring, RUNNING);
  }

  lemma RunsOnRing(s: Sched, c: nat)
    requires Inv(s) && c < 2 && !s.cores[c].pending && s.cores[c].runPt.Thread?
    ensures var t := s.cores[c].runPt.id;
            s.Has(t) && s.threads[t].state == RUNNING && t in s.rings[s.threads[t].priority] && RingOk(s, s.threads[t].priority, {})
  {
    var t := s.cores[c].runPt.id;
    assert t in OwnedBy(s, c);
    assert RingOk(s, s.threads[t].priority, {});
  }

  lemma RemovedAlone(ring: seq<Tid>, t: Tid)
    ensures |ring| == 1 && t in ring ==> Removed(ring, t) == []
  {
  }

  lemma RingCounts(s: Sched, t: Tid)
    requires s.Shape() && s.Has(t) && RingOk(s, s.threads[t].priority, {}) && OnRing(s.threads[t].state)
    ensures var p := s.threads[t].priority;
            && t in s.rings[p] && |s.rings[p]| == s.activeCnt[p] + s.runningCnt[p]
            && (s.threads[t].state == ACTIVE ==> s.activeCnt[p] > 0)
            && (s.threads[t].state == RUNNING ==> s.runningCnt[p] > 0 && s.activeCnt[p] >= 0)
  {
    var ring := s.rings[s.threads[t].priority];
    CountAll(s.threads, ring);
    CountMember(s.threads, ring, t);
  }

  lemma BetweenPlaced(s: Sched, c: nat)
    requires Between(s, c)
    ensures Placed(s, {}) && s.Shape() && s.activeCnt[IDLE_PRIORITY] == 1
  {
  }
}
