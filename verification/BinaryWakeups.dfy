/** The two gaps of b_signal and b_wait, which take the thread list's lock only for the list itself: a
    wake-up can find nobody, and a waiter can miss its wake-up. When each happens, and when not. */
module BinaryWakeups {
  import opened Options
  import opened RingSeq
  import opened WaitQueue
  import opened SemaState
  import opened BinarySemaphore

  // ---------------------------------------------------------------- wake-ups of nobody

  /** The wake-ups that threads have decided on, run in any order, find a waiter each iff they are no more
      than the waiters. */
  lemma {:induction false} UnblocksBreakIff(s: State, run: seq<nat>)
    requires Inv(s) && !s.broken && NoRepeats(run) && |run| <= |s.queue| + 1
    requires forall t :: t in run ==> t < |s.pcs| && s.pcs[t] == Unblocking
    ensures After(s, run).Some?
    ensures After(s, run).value.broken <==> |run| > |s.queue|
    ensures |run| <= |s.queue| ==> Unblocked(s, run, After(s, run).value)
  {
    hide Inv, Step, Holders;
    if run != [] {
      var t, rest := run[|run| - 1], run[..|run| - 1];
      assert t in run && t !in rest && forall u :: u in rest ==> u in run;
      UnblocksBreakIff(s, rest);
      var p := After(s, rest).value;
      StepInv(p, t);
      if |run| <= |s.queue| { UnblockedStep(s, rest, p, t); }
      assert run == rest + [t];
    }
  }

  ghost predicate Unblocked(s: State, run: seq<nat>, s': State)
  {
    && Inv(s') && !s'.broken && |run| <= |s.queue| && s'.queue == s.queue[|run|..] && |s'.pcs| == |s.pcs|
    && forall t :: 0 <= t < |s.pcs| && s.pcs[t] == Unblocking && t !in run ==> s'.pcs[t] == Unblocking
  }

  lemma UnblockedStep(s: State, run: seq<nat>, p: State, t: nat)
    requires Unblocked(s, run, p) && |run| < |s.queue| && t < |s.pcs| && p.pcs[t] == Unblocking
    ensures Enabled(p, t) && Unblocked(s, run + [t], Step(p, t))
  {
    StepInv(p, t);
    hide Inv;
    assert p.queue[1..] == s.queue[|run| + 1..];
    assert p.pcs[p.queue[0].id] == Blocked by { InvHead(p); }
  }

  lemma InvHead(s: State)
    requires Inv(s) && s.queue != []
    ensures s.queue[0].id < |s.pcs| && s.pcs[s.queue[0].id] == Blocked
  {
    WakeOk(s, WaitEnter, Blocked);
  }

  /** No thread looks for waiters while another is between its look and its wake-up. */
  ghost predicate OneSignalAtATime(s: State, run: seq<nat>)
  {
    run == [] ||
    (OneSignalAtATime(s, run[..|run| - 1]) &&
     var p, t := After(s, run[..|run| - 1]), run[|run| - 1];
     p.Some? && t < |p.value.pcs| && (p.value.pcs[t] == RootCheck ==> Unblocking !in p.value.pcs))
  }

  /** Under that condition no wake-up meets an empty list. */
  lemma {:induction false} OneAtATimeNeverBreaks(priority: seq<nat>, run: seq<nat>, s: State)
    requires After(Initial(priority), run) == Some(s) && OneSignalAtATime(Initial(priority), run)
    ensures !s.broken && AtMostOneUnblocks(s)
  {
    if run != [] {
      hide Inv, Holders;
      var p, t := After(Initial(priority), run[..|run| - 1]).value, run[|run| - 1];
      OneAtATimeNeverBreaks(priority, run[..|run| - 1], p);
      RunInv(priority, run[..|run| - 1], p);
      StepInv(p, t);
      OneAtATimeStep(p, t);
    }
  }

  lemma OneAtATimeStep(s: State, t: nat)
    requires Inv(s) && Enabled(s, t) && AtMostOneUnblocks(s) && (s.pcs[t] == RootCheck ==> Unblocking !in s.pcs)
    ensures !Step(s, t).broken && AtMostOneUnblocks(Step(s, t))
  {
    hide Inv, Insert;
    if s.queue != [] { InvHead(s); }
  }

  ghost predicate AtMostOneUnblocks(s: State)
  {
    forall t, u :: 0 <= t < |s.pcs| && 0 <= u < |s.pcs| && s.pcs[t] == Unblocking && s.pcs[u] == Unblocking ==>
      t == u && s.queue != []
  }

  // ---------------------------------------------------------------- two signals at once

  lemma Then(s: State, run: seq<nat>, p: State, t: nat)
    requires After(s, run) == Some(p) && Enabled(p, t)
    ensures After(s, run + [t]) == Some(Step(p, t))
  {
    assert (run + [t])[..|run|] == run;
  }

  lemma {:induction false} AfterConcat(s: State, a: seq<nat>, p: State, b: seq<nat>)
    requires After(s, a) == Some(p)
    ensures After(s, a + b) == After(p, b)
  {
    if b == [] {
      assert a + b == a;
    } else {
      AfterConcat(s, a, p, b[..|b| - 1]);
      assert (a + b)[..|a + b| - 1] == a + b[..|b| - 1];
    }
  }

  /** What n steps of t make of s when nobody else moves. */
  ghost function Alone(s: State, t: nat, n: nat): Option<State>
  {
    After(s, seq(n, i => t))
  }

  lemma AloneThen(s: State, t: nat, n: nat)
    requires Alone(s, t, n).Some? && Enabled(Alone(s, t, n).value, t)
    ensures Alone(s, t, n + 1) == Some(Step(Alone(s, t, n).value, t))
  {
    assert seq(n + 1, i => t) == seq(n, i => t) + [t];
    Then(s, seq(n, i => t), Alone(s, t, n).value, t);
  }

  lemma AloneStart(s: State, t: nat)
    ensures Alone(s, t, 0) == Some(s)
  {
  }

  ghost predicate Reaches(s: State, p: State)
  {
    exists run :: After(s, run) == Some(p)
  }

  lemma ReachesAlone(s0: State, s: State, t: nat, n: nat)
    requires Reaches(s0, s) && Alone(s, t, n).Some?
    ensures Reaches(s0, Alone(s, t, n).value)
  {
    var run :| After(s0, run) == Some(s);
    AfterConcat(s0, run, s, seq(n, i => t));
  }

  lemma ReachesStep(s0: State, s: State, t: nat)
    requires Reaches(s0, s) && Enabled(s, t)
    ensures Reaches(s0, Step(s, t))
  {
    var run :| After(s0, run) == Some(s);
    Then(s0, run, s, t);
  }

  /** b_wait without interruption takes a free semaphore. */
  lemma WaitTakes(s: State, t: nat)
    requires t < |s.pcs| && s.pcs[t] == Outside && s.lock == None && s.value == 0 && !s.broken
    ensures Alone(s, t, 5) == Some(At(s, t, Inside).(value := 1))
  {
    hide Alone;
    AloneStart(s, t);
    AloneThen(s, t, 0);
    AloneThen(s, t, 1);
    AloneThen(s, t, 2);
    AloneThen(s, t, 3);
    AloneThen(s, t, 4);
    assert Alone(s, t, 5).value.pcs == s.pcs[t := Inside];
  }

  /** b_wait without interruption on a held semaphore fails its test. */
  lemma WaitFails(s: State, t: nat)
    requires t < |s.pcs| && s.pcs[t] == Outside && s.lock == None && s.value == 1 && !s.broken
    ensures Alone(s, t, 5) == Some(At(s, t, Blocking))
  {
    hide Alone;
    AloneStart(s, t);
    AloneThen(s, t, 0);
    AloneThen(s, t, 1);
    AloneThen(s, t, 2);
    AloneThen(s, t, 3);
    AloneThen(s, t, 4);
    assert Alone(s, t, 5).value.pcs == s.pcs[t := Blocking];
  }

  /** Then it ends in the list. */
  lemma WaitParks(s: State, t: nat)
    requires t < |s.pcs| && s.pcs[t] == Outside && s.lock == None && s.value == 1 && !s.broken
    ensures Alone(s, t, 6) == Some(Park(s, t, Blocked))
    ensures t < |s.priority| ==>
              Alone(s, t, 6) == Some(s.(pcs := s.pcs[t := Blocked], arrivals := s.arrivals + 1,
                                        queue := Insert(s.queue, Waiter(t, s.priority[t], s.arrivals))))
  {
    hide Alone, Insert;
    WaitFails(s, t);
    AloneThen(s, t, 5);
    assert Alone(s, t, 6).value.pcs == s.pcs[t := Blocked];
  }

  /** b_signal without interruption up to its wake-up. */
  lemma SignalLooks(s: State, t: nat)
    requires t < |s.pcs| && s.pcs[t] == Inside && s.lock == None && s.value == 1 && !s.broken
    ensures Alone(s, t, 4) == Some(At(s, t, RootCheck).(value := 0))
  {
    hide Alone;
    AloneStart(s, t);
    AloneThen(s, t, 0);
    AloneThen(s, t, 1);
    AloneThen(s, t, 2);
    AloneThen(s, t, 3);
    assert Alone(s, t, 4).value.pcs == s.pcs[t := RootCheck];
  }

  /** b_signal without interruption and without waiters frees the semaphore. */
  lemma SignalFrees(s: State, t: nat)
    requires t < |s.pcs| && s.pcs[t] == Inside && s.lock == None && s.value == 1 && !s.broken && s.queue == []
    ensures Alone(s, t, 5) == Some(At(s, t, Outside).(value := 0))
  {
    hide Alone;
    SignalLooks(s, t);
    AloneThen(s, t, 4);
    assert Alone(s, t, 5).value.pcs == s.pcs[t := Outside];
  }

  /** With waiters it also takes the head out of the list, and that thread will test again. */
  lemma SignalWakes(s: State, t: nat)
    requires t < |s.pcs| && s.pcs[t] == Inside && s.lock == None && s.value == 1 && !s.broken
    requires s.queue != [] && s.queue[0].id < |s.pcs| && s.queue[0].id != t
    ensures Alone(s, t, 6) == Some(s.(value := 0, queue := s.queue[1..], pcs := s.pcs[s.queue[0].id := WaitEnter][t := Outside]))
  {
    hide Alone;
    SignalLooks(s, t);
    AloneThen(s, t, 4);
    AloneThen(s, t, 5);
    assert Alone(s, t, 6).value.pcs == s.pcs[s.queue[0].id := WaitEnter][t := Outside];
  }

  /** The end of b_signal, whoever holds the lock or the semaphore by now: it wakes the head of the list iff there
      is one. */
  lemma LookDecides(s: State, t: nat)
    requires t < |s.pcs| && s.pcs[t] == RootCheck && !s.broken
    ensures s.queue == [] ==> Alone(s, t, 1) == Some(At(s, t, Outside))
    ensures s.queue != [] && s.queue[0].id < |s.pcs| && s.queue[0].id != t ==>
              Alone(s, t, 2) == Some(s.(queue := s.queue[1..], pcs := s.pcs[s.queue[0].id := WaitEnter][t := Outside]))
  {
    hide Alone;
    AloneStart(s, t);
    AloneThen(s, t, 0);
    if s.queue != [] && s.queue[0].id < |s.pcs| && s.queue[0].id != t {
      AloneThen(s, t, 1);
      assert Alone(s, t, 2).value.pcs == s.pcs[s.queue[0].id := WaitEnter][t := Outside];
    }
  }

  /** A step outside the lock does not depend on who holds it or on the value. */
  lemma LockUnseen(s: State, t: nat, lock: Option<nat>, value: int)
    requires Enabled(s, t) && !HasLock(s.pcs[t]) && s.pcs[t] != WaitEnter && s.pcs[t] != ClearEnter
    ensures Enabled(s.(lock := lock, value := value), t)
    ensures Step(s.(lock := lock, value := value), t) == Step(s, t).(lock := lock, value := value)
  {
    hide Insert;
  }

  /** A thread that was woken and finds the semaphore free takes it. */
  lemma RetryTakes(s: State, t: nat)
    requires t < |s.pcs| && s.pcs[t] == WaitEnter && s.lock == None && s.value == 0 && !s.broken
    ensures Alone(s, t, 4) == Some(At(s, t, Inside).(value := 1))
  {
    hide Alone;
    AloneStart(s, t);
    AloneThen(s, t, 0);
    AloneThen(s, t, 1);
    AloneThen(s, t, 2);
    AloneThen(s, t, 3);
    assert Alone(s, t, 4).value.pcs == s.pcs[t := Inside];
  }

  /** A signal hands the semaphore to the first waiter. */
  lemma SignalHandsOver(s: State, t: nat)
    requires Inv(s) && t < |s.pcs| && s.pcs[t] == Inside && s.lock == None && !s.broken && s.queue != []
    ensures var h := s.queue[0].id;
            && h < |s.pcs| && s.pcs[h] == Blocked && Alone(s, t, 6).Some?
            && Alone(Alone(s, t, 6).value, h, 4) == Some(s.(queue := s.queue[1..], pcs := s.pcs[h := Inside][t := Outside]))
  {
    InvHead(s);
    InsideMeansTaken(s, t);
    hide Alone, Inv;
    var h := s.queue[0].id;
    SignalWakes(s, t);
    RetryTakes(Alone(s, t, 6).value, h);
    assert s.pcs[h := WaitEnter][t := Outside][h := Inside] == s.pcs[h := Inside][t := Outside];
  }

  lemma InsideMeansTaken(s: State, t: nat)
    requires Inv(s) && t < |s.pcs| && s.pcs[t] == Inside
    ensures s.value == 1
  {
    assert t in Holders(s);
  }

  /** Thread 2 waits, and threads 0 and 1 both saw it. */
  function BothLooked(): State
  {
    Sema(0, None, [Waiter(2, 0, 0)], [Unblocking, Unblocking, Blocked], [0, 0, 0], 1, false)
  }

  /** Two holders one after the other can both see the one waiter. */
  lemma BothLook()
    ensures Reaches(Initial([0, 0, 0]), BothLooked())
  {
    hide Alone, Reaches;
    var s0 := Initial([0, 0, 0]);
    var s1 := s0.(value := 1, pcs := [Inside, Outside, Outside]);
    var s2 := s1.(pcs := [Inside, Outside, Blocked], queue := [Waiter(2, 0, 0)], arrivals := 1);
    var s3 := s2.(value := 0, pcs := [RootCheck, Outside, Blocked]);
    var s4 := s3.(value := 1, pcs := [RootCheck, Inside, Blocked]);
    var s5 := s4.(pcs := [Unblocking, Inside, Blocked]);
    var s6 := s5.(value := 0, pcs := [Unblocking, RootCheck, Blocked]);
    assert s0.pcs[0 := Inside] == s1.pcs && s1.pcs[2 := Blocked] == s2.pcs && s2.pcs[0 := RootCheck] == s3.pcs;
    assert s3.pcs[1 := Inside] == s4.pcs && s4.pcs[0 := Unblocking] == s5.pcs && s5.pcs[1 := RootCheck] == s6.pcs;
    assert s6.pcs[1 := Unblocking] == BothLooked().pcs;
    assert Park(s1, 2, Blocked) == s2 by { assert Insert([], Waiter(2, 0, 0)) == [Waiter(2, 0, 0)]; }
    ReachesItself(s0);
    WaitTakes(s0, 0);
    ReachesAlone(s0, s0, 0, 5);
    WaitParks(s1, 2);
    ReachesAlone(s0, s1, 2, 6);
    SignalLooks(s2, 0);
    ReachesAlone(s0, s2, 0, 4);
    WaitTakes(s3, 1);
    ReachesAlone(s0, s3, 1, 5);
    ReachesStep(s0, s4, 0);
    SignalLooks(s5, 1);
    ReachesAlone(s0, s5, 1, 4);
    ReachesStep(s0, s6, 1);
  }

  /** Then one of them wakes nobody: b_signal looks at the list outside any lock. */
  lemma TwoSignalsBreak()
    ensures exists s :: Reaches(Initial([0, 0, 0]), s) && s.broken
  {
    BothLook();
    var s0, s7 := Initial([0, 0, 0]), BothLooked();
    var run :| After(s0, run) == Some(s7);
    RunInv([0, 0, 0], run, s7);
    UnblocksBreakIff(s7, [0, 1]);
    AfterConcat(s0, run, s7, [0, 1]);
    assert Reaches(s0, After(s7, [0, 1]).value);
  }

  lemma ReachesItself(s: State)
    ensures Reaches(s, s)
  {
    assert After(s, []) == Some(s);
  }

  // ---------------------------------------------------------------- missed wake-ups

  /** About to take the free semaphore, or to wake a waiter. */
  predicate Awake(pc: Pc) { pc in {ClearLeave, RootCheck, Unblocking, WaitEnter, WaitLoad, WaitStore(0)} }

  ghost predicate AllAsleep(s: State)
  {
    forall t :: 0 <= t < |s.pcs| ==> !Awake(s.pcs[t])
  }

  /** Threads wait for a semaphore that is free, and nobody is about to take it or to wake them. */
  ghost predicate Missed(s: State)
  {
    s.queue != [] && s.value == 0 && AllAsleep(s)
  }

  /** A thread enters the list while the semaphore is free and nobody is awake. */
  ghost predicate ParksTooLate(s: State, t: nat)
  {
    t < |s.pcs| && s.pcs[t] == Blocking && s.value == 0 && AllAsleep(s)
  }

  /** That step, and no other, misses a wake-up. */
  lemma MissedIff(s: State, t: nat)
    requires Inv(s) && Enabled(s, t) && !Missed(s) && !Step(s, t).broken
    ensures Missed(Step(s, t)) <==> ParksTooLate(s, t)
  {
    hide QueueOk, Holders, Insert;
    var s' := Step(s, t);
    if s.pcs[t] == Unblocking {
      InvHead(s);
      assert Awake(s'.pcs[s.queue[0].id]);
    } else if s.pcs[t] == ClearStore {
      assert Awake(s'.pcs[t]);
    } else if s.value == 0 && !AllAsleep(s) {
      var u :| 0 <= u < |s.pcs| && Awake(s.pcs[u]);
      assert s'.value == 0 && s'.queue != [] ==> Awake(s'.pcs[u]);
    } else if s.pcs[t] == Blocking && AllAsleep(s) {
      assert AllAsleep(s');
    }
  }

  /** No state of the run misses a wake-up. */
  ghost predicate NeverMissed(s: State, run: seq<nat>)
  {
    var r := After(s, run);
    (r.Some? ==> !Missed(r.value)) && (run != [] ==> NeverMissed(s, run[..|run| - 1]))
  }

  /** No step of the run parks too late. */
  ghost predicate ParksInTime(s: State, run: seq<nat>)
  {
    run == [] ||
    (ParksInTime(s, run[..|run| - 1]) &&
     var p := After(s, run[..|run| - 1]); p.Some? ==> !ParksTooLate(p.value, run[|run| - 1]))
  }

  /** A run leaves no waiter on a free semaphore iff no thread of it parks too late. */
  lemma {:induction false} NeverMissedIff(priority: seq<nat>, run: seq<nat>, s: State)
    requires After(Initial(priority), run) == Some(s) && !s.broken
    ensures NeverMissed(Initial(priority), run) <==> ParksInTime(Initial(priority), run)
  {
    if run != [] {
      hide Inv, Holders, Missed, Step, ParksTooLate;
      var before, t := run[..|run| - 1], run[|run| - 1];
      var p := After(Initial(priority), before).value;
      NeverMissedIff(priority, before, p);
      RunInv(priority, before, p);
      if !Missed(p) {
        MissedIff(p, t);
      } else {
        MissedIsSeen(Initial(priority), before, p);
      }
    }
  }

  lemma MissedIsSeen(s: State, run: seq<nat>, p: State)
    requires After(s, run) == Some(p) && Missed(p)
    ensures !NeverMissed(s, run)
  {
  }

  /** No value is cleared while a thread that found it taken is on its way into the list. */
  ghost predicate ParkedBeforeClear(s: State, run: seq<nat>)
  {
    run == [] ||
    (ParkedBeforeClear(s, run[..|run| - 1]) &&
     var p, t := After(s, run[..|run| - 1]), run[|run| - 1];
     p.Some? && t < |p.value.pcs| && (p.value.pcs[t] == ClearStore ==> Blocking !in p.value.pcs))
  }

  /** While the semaphore is free nobody is on the way into its list. */
  ghost predicate ParkedWhileTaken(s: State)
  {
    s.value == 0 ==> forall t :: 0 <= t < |s.pcs| ==> s.pcs[t] != Blocking && (s.pcs[t].WaitLeave? ==> s.pcs[t].rv == 0)
  }

  lemma ParkedStep(s: State, t: nat)
    requires Inv(s) && Enabled(s, t) && ParkedWhileTaken(s) && (s.pcs[t] == ClearStore ==> Blocking !in s.pcs)
    ensures ParkedWhileTaken(Step(s, t))
  {
    hide QueueOk, Holders, Insert;
    var s' := Step(s, t);
    if s.pcs[t] == ClearStore {
      forall u | 0 <= u < |s'.pcs| ensures s'.pcs[u] != Blocking && !s'.pcs[u].WaitLeave? {
        assert s.lock == Some(t) && (u != t ==> s.lock != Some(u));
      }
    }
  }

  /** Under that simpler condition no thread parks too late. */
  lemma {:induction false} NoMissedWakeup(priority: seq<nat>, run: seq<nat>, s: State)
    requires After(Initial(priority), run) == Some(s) && ParkedBeforeClear(Initial(priority), run) && !s.broken
    ensures !Missed(s) && ParkedWhileTaken(s) && ParksInTime(Initial(priority), run)
  {
    if run != [] {
      hide Inv, Holders, Step, Missed;
      var p, t := After(Initial(priority), run[..|run| - 1]).value, run[|run| - 1];
      NoMissedWakeup(priority, run[..|run| - 1], p);
      RunInv(priority, run[..|run| - 1], p);
      ParkedStep(p, t);
      MissedIff(p, t);
    }
  }

  /** Without it one can be: the signal looks at the list before the waiter is in it. */
  lemma WakeupMissed()
    ensures exists s :: Reaches(Initial([0, 0]), s) && Missed(s) && !s.broken
  {
    hide Alone, Reaches;
    var s0 := Initial([0, 0]);
    var s1 := s0.(value := 1, pcs := [Inside, Outside]);
    var s2 := s1.(pcs := [Inside, Blocking]);
    var s3 := s2.(value := 0, pcs := [RootCheck, Blocking]);
    var s4 := s3.(pcs := [Outside, Blocking]);
    assert s0.pcs[0 := Inside] == s1.pcs && s1.pcs[1 := Blocking] == s2.pcs && s2.pcs[0 := RootCheck] == s3.pcs;
    assert s3.pcs[0 := Outside] == s4.pcs;
    ReachesItself(s0);
    WaitTakes(s0, 0);
    ReachesAlone(s0, s0, 0, 5);
    WaitFails(s1, 1);
    ReachesAlone(s0, s1, 1, 5);
    SignalLooks(s2, 0);
    ReachesAlone(s0, s2, 0, 4);
    ReachesStep(s0, s3, 0);
    ReachesStep(s0, s4, 1);
    assert Missed(Step(s4, 1));
  }
}
