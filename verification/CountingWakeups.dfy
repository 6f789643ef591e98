/** The gap of c_wait between its unlock and sched_block: a waiter can be left while the counter has a unit for
    it. When that happens, and a run in which it does. */
module CountingWakeups {
  import opened Options
  import opened WaitQueue
  import opened SemaState
  import opened CountingSemaphore

  /** About to take a unit, or to wake a waiter. */
  predicate Awake(pc: Pc)
  {
    pc.WaitEnter? || pc.WaitTest? || pc.WaitLoad? || pc.WaitStore? || pc.RootCheck? || pc.Unblocking?
  }

  ghost function AwakeSet(m: Sema<Pc>): set<nat>
  {
    set t | 0 <= t < |m.pcs| && Awake(m.pcs[t])
  }

  /** Threads wait although there are more units than threads about to take or pass on one. */
  ghost predicate Missed(m: Sema<Pc>)
  {
    m.queue != [] && m.value > |AwakeSet(m)|
  }

  /** A thread enters the list while there is such a unit. */
  ghost predicate ParksTooLate(m: Sema<Pc>, t: nat)
  {
    t < |m.pcs| && m.pcs[t] == Blocking && m.value > |AwakeSet(m)|
  }

  lemma AwakeMove(m: Sema<Pc>, m': Sema<Pc>, t: nat)
    requires t < |m.pcs| == |m'.pcs| && m'.pcs == m.pcs[t := m'.pcs[t]]
    ensures AwakeSet(m') == if Awake(m'.pcs[t]) then AwakeSet(m) + {t} else AwakeSet(m) - {t}
    ensures t in AwakeSet(m) <==> Awake(m.pcs[t])
    ensures |AwakeSet(m')| == |AwakeSet(m)| - (if Awake(m.pcs[t]) then 1 else 0) + (if Awake(m'.pcs[t]) then 1 else 0)
  {
  }

  /** That step, and no other, misses a wake-up. */
  lemma MissedIff(s: State, e: Event)
    requires SemaOk(s.sema) && Enabled(s, e) && !Missed(s.sema)
    ensures Missed(Step(s, e).sema) <==> ParksTooLate(s.sema, e.thread)
  {
    hide QueueOk, AwakeSet, Insert;
    var m, m', t := s.sema, Step(s, e).sema, e.thread;
    assert Knows(m, m.pcs[t]);
    if m.pcs[t] == Unblocking {
      var w := Wake(m, WaitEnter);
      WakeOk(m, WaitEnter, Blocked);
      AwakeMove(m, w, m.queue[0].id);
      AwakeMove(w, m', t);
    } else {
      AwakeMove(m, m', t);
    }
  }

  /** No state of the run misses a wake-up. */
  ghost predicate NeverMissed(s: State, run: seq<Event>)
  {
    var r := After(s, run);
    (r.Some? ==> !Missed(r.value.sema)) && (run != [] ==> NeverMissed(s, run[..|run| - 1]))
  }

  /** No step of the run parks too late. */
  ghost predicate ParksInTime(s: State, run: seq<Event>)
  {
    run == [] ||
    (ParksInTime(s, run[..|run| - 1]) &&
     var p := After(s, run[..|run| - 1]); p.Some? ==> !ParksTooLate(p.value.sema, run[|run| - 1].thread))
  }

  /** A run leaves no waiter without a taker for its unit iff no thread of it parks too late. */
  lemma {:induction false} NeverMissedIff(value: int, priority: seq<nat>, run: seq<Event>)
    requires After(Initial(value, priority), run).Some?
    ensures NeverMissed(Initial(value, priority), run) <==> ParksInTime(Initial(value, priority), run)
  {
    if run != [] {
      hide SemaOk, Missed, Step, ParksTooLate;
      var before, e := run[..|run| - 1], run[|run| - 1];
      var p := After(Initial(value, priority), before).value;
      NeverMissedIff(value, priority, before);
      RunInv(value, priority, before, p);
      if !Missed(p.sema) {
        MissedIff(p, e);
      } else {
        MissedIsSeen(Initial(value, priority), before, p);
      }
    }
  }

  lemma MissedIsSeen(s: State, run: seq<Event>, p: State)
    requires After(s, run) == Some(p) && Missed(p.sema)
    ensures !NeverMissed(s, run)
  {
  }

  /** One step more. */
  lemma Next(s0: State, run: seq<Event>, s: State, e: Event) returns (run': seq<Event>, s': State)
    requires After(s0, run) == Some(s) && Enabled(s, e)
    ensures s' == Step(s, e) && After(s0, run') == Some(s')
  {
    s', run' := Step(s, e), run + [e];
    Then(s0, run, s, e, s');
  }

  /** One can: thread 0 finds 0 and unlocks, thread 1 signals and finds an empty list, thread 0 parks. */
  lemma WakeupMissed() returns (run: seq<Event>, s: State)
    ensures After(Initial(0, [0, 0]), run) == Some(s) && Missed(s.sema) && s.sema.value == 1 && s.sema.pcs == [Blocked, Outside]
  {
    var s0 := Initial(0, [0, 0]);
    assert s0.sema.pcs == [Outside, Outside] && After(s0, []) == Some(s0);
    hide After, Step, AwakeSet;
    run, s := WaitGivesUp(s0, [], s0);
    run, s := SignalAdds(s0, run, s);
    run, s := SignalLeaves(s0, run, s);
    ParksAlone(s);
    run, s := Next(s0, run, s, Event(0, Wait));
  }

  /** The last step: nobody is awake and there is a unit. */
  lemma ParksAlone(s: State)
    requires s.sema.pcs == [Blocking, Outside] && s.sema.value == 1 && s.sema.queue == [] && !s.sema.broken
    ensures var e := Event(0, Wait);
            Enabled(s, e) && Missed(Step(s, e).sema) && Step(s, e).sema.value == 1 && Step(s, e).sema.pcs == [Blocked, Outside]
  {
    assert AwakeSet(Step(s, Event(0, Wait)).sema) == {};
  }

  /** A wait that finds 0, up to its sched_block. */
  lemma WaitGivesUp(s0: State, run0: seq<Event>, s: State) returns (run: seq<Event>, s': State)
    requires After(s0, run0) == Some(s)
    requires s.sema.pcs == [Outside, Outside] && s.sema.lock == None && s.sema.value == 0 && !s.sema.broken
    ensures After(s0, run) == Some(s') && s' == s.(sema := s.sema.(pcs := [Blocking, Outside]))
  {
    hide After, Park, Wake;
    var e := Event(0, Wait);
    run, s' := Next(s0, run0, s, e);
    run, s' := Next(s0, run, s', e);
    run, s' := Next(s0, run, s', e);
    run, s' := Next(s0, run, s', e);
    assert s'.sema.pcs == [Blocking, Outside];
  }

  /** A signal up to its store. */
  lemma SignalAdds(s0: State, run0: seq<Event>, s: State) returns (run: seq<Event>, s': State)
    requires After(s0, run0) == Some(s)
    requires s.sema.pcs == [Blocking, Outside] && s.sema.lock == None && s.sema.value == 0 && !s.sema.broken
    ensures After(s0, run) == Some(s') && s'.sema == s.sema.(pcs := [Blocking, SignalStore(0)], lock := Some(1))
  {
    hide After, Park, Wake;
    var e := Event(1, Signal);
    run, s' := Next(s0, run0, s, e);
    run, s' := Next(s0, run, s', e);
    run, s' := Next(s0, run, s', e);
    assert s'.sema.pcs == [Blocking, SignalStore(0)];
  }

  /** The rest of it while nobody is in the list. */
  lemma SignalLeaves(s0: State, run0: seq<Event>, s: State) returns (run: seq<Event>, s': State)
    requires After(s0, run0) == Some(s)
    requires s.sema.pcs == [Blocking, SignalStore(0)] && s.sema.queue == [] && !s.sema.broken
    ensures After(s0, run) == Some(s') && s'.sema == s.sema.(pcs := [Blocking, Outside], lock := None, value := 1)
  {
    hide After, Park, Wake;
    var e := Event(1, Signal);
    run, s' := Next(s0, run0, s, e);
    run, s' := Next(s0, run, s', e);
    run, s' := Next(s0, run, s', e);
    assert s'.sema.pcs == [Blocking, Outside];
  }
}
