/** c_wait and c_signal of os/semaphore.c, one load, store or lock operation at a time, for any number of
    threads in any order. */
module CountingSemaphore {
  import opened Options
  import opened SemaState

  datatype Pc =
    | Outside
    | WaitEnter
    | WaitTest
    | WaitDrop
    | Blocking
    | Blocked
    | WaitLoad
    | WaitStore(v: int)
    | WaitLeave
    | SignalEnter
    | SignalLoad
    | SignalStore(v: int)
    | RootCheck
    | Unblocking
    | SignalLeave

  /** The semaphore, and how many signals and waits have changed its value. */
  datatype State = State(sema: Sema<Pc>, signals: nat, waits: nat)

  datatype Call = Wait | Signal

  /** The next step of a thread; outside, the call it makes. */
  datatype Event = Event(thread: nat, call: Call)

  function Initial(value: int, priority: seq<nat>): State
  {
    State(Sema(value, None, [], seq(|priority|, i => Outside), priority, 0, false), 0, 0)
  }

  /** A blocked thread waits to be woken, and the COUNTING_SEMA4 lock is taken only when it is free. */
  predicate Enabled(s: State, e: Event)
  {
    && e.thread < |s.sema.pcs| && !s.sema.broken && s.sema.pcs[e.thread] != Blocked
    && (s.sema.pcs[e.thread] in {WaitEnter, SignalEnter} ==> s.sema.lock == None)
  }

  /** A step that leaves the value alone. */
  function Move(m: Sema<Pc>, t: nat, call: Call): Sema<Pc>
    requires t < |m.pcs|
  {
    match m.pcs[t]
    case Outside => At(m, t, if call == Wait then WaitEnter else SignalEnter)
    case WaitEnter => At(m, t, WaitTest).(lock := Some(t))
    case WaitTest => At(m, t, if m.value == 0 then WaitDrop else WaitLoad)
    case WaitDrop => At(m, t, Blocking).(lock := None)
    case Blocking => Park(m, t, Blocked)
    case WaitLoad => At(m, t, WaitStore(m.value))
    case WaitLeave => At(m, t, Outside).(lock := None)
    case SignalEnter => At(m, t, SignalLoad).(lock := Some(t))
    case SignalLoad => At(m, t, SignalStore(m.value))
    case RootCheck => At(m, t, if m.queue != [] then Unblocking else SignalLeave)
    case Unblocking => At(Wake(m, WaitEnter), t, SignalLeave)
    case SignalLeave => At(m, t, Outside).(lock := None)
    case _ => m
  }

  function Step(s: State, e: Event): State
    requires Enabled(s, e)
  {
    var t := e.thread;
    var pc := s.sema.pcs[t];
    if pc.WaitStore? then s.(sema := At(s.sema, t, WaitLeave).(value := pc.v - 1), waits := s.waits + 1)
    else if pc.SignalStore? then s.(sema := At(s.sema, t, RootCheck).(value := pc.v + 1), signals := s.signals + 1)
    else s.(sema := Move(s.sema, t, e.call))
  }

  ghost function After(s: State, run: seq<Event>): Option<State>
  {
    if run == [] then Some(s)
    else
      var p := After(s, run[..|run| - 1]);
      if p.Some? && Enabled(p.value, run[|run| - 1]) then Some(Step(p.value, run[|run| - 1])) else None
  }

  predicate HasLock(pc: Pc)
  {
    pc.WaitTest? || pc.WaitDrop? || pc.WaitLoad? || pc.WaitStore? || pc.WaitLeave? || pc.SignalLoad? || pc.SignalStore?
    || pc.RootCheck? || pc.Unblocking? || pc.SignalLeave?
  }

  /** What a thread inside the lock knows. */
  ghost predicate Knows(m: Sema<Pc>, pc: Pc)
  {
    match pc
    case WaitLoad => m.value != 0
    case WaitStore(v) => v == m.value && v != 0
    case SignalStore(v) => v == m.value
    case Unblocking => m.queue != []
    case _ => true
  }

  ghost predicate SemaOk(m: Sema<Pc>)
  {
    && QueueOk(m, Blocked) && !m.broken
    && (forall t: nat :: m.lock == Some(t) <==> t < |m.pcs| && HasLock(m.pcs[t]))
    && (forall t :: 0 <= t < |m.pcs| ==> Knows(m, m.pcs[t]))
  }

  ghost predicate Inv(s: State, initial: int)
  {
    && SemaOk(s.sema)
    && s.sema.value == initial + s.signals - s.waits
    && (initial >= 0 ==> s.sema.value >= 0)
  }

  /** The semaphore as one atomic counter: a step leaves it alone, adds a signal, or takes a wait. */
  ghost predicate CounterStep(s: State, s': State)
  {
    var v, v' := s.sema.value, s'.sema.value;
    && CounterMoves(v, v')
    && s'.signals == s.signals + (if v' == v + 1 then 1 else 0)
    && s'.waits == s.waits + (if v' == v - 1 then 1 else 0)
  }

  lemma StepInv(s: State, e: Event, initial: int)
    requires Inv(s, initial) && Enabled(s, e)
    ensures Inv(Step(s, e), initial) && CounterStep(s, Step(s, e))
    ensures var pc, pc' := s.sema.pcs[e.thread], Step(s, e).sema.pcs[e.thread];
            pc == WaitTest ==> (pc' == WaitLoad <==> s.sema.value != 0) && (pc' == WaitDrop <==> s.sema.value == 0)
  {
    var m, m', t := s.sema, Step(s, e).sema, e.thread;
    if m.pcs[t] == Unblocking {
      UnblockOk(m, t);
    } else if m.pcs[t] == Blocking {
      ParkOk(m, t, Blocked);
    } else {
      MoveOk(s, e);
    }
  }

  lemma UnblockOk(m: Sema<Pc>, t: nat)
    requires SemaOk(m) && t < |m.pcs| && m.pcs[t] == Unblocking
    ensures SemaOk(At(Wake(m, WaitEnter), t, SignalLeave))
  {
    hide QueueOk;
    assert Knows(m, m.pcs[t]);
    var w := Wake(m, WaitEnter);
    WakeOk(m, WaitEnter, Blocked);
    assert m.queue[0].id != t && w.pcs[t] == Unblocking;
    ElsewhereOk(w, At(w, t, SignalLeave), t, Blocked);
  }

  lemma MoveOk(s: State, e: Event)
    requires SemaOk(s.sema) && Enabled(s, e) && s.sema.pcs[e.thread] != Unblocking && s.sema.pcs[e.thread] != Blocking
    ensures SemaOk(Step(s, e).sema)
  {
    hide QueueOk;
    assert Knows(s.sema, s.sema.pcs[e.thread]);
    ElsewhereOk(s.sema, Step(s, e).sema, e.thread, Blocked);
  }

  lemma {:induction false} RunInv(value: int, priority: seq<nat>, run: seq<Event>, s: State)
    requires After(Initial(value, priority), run) == Some(s)
    ensures Inv(s, value)
  {
    if run != [] {
      hide Inv;
      var p := After(Initial(value, priority), run[..|run| - 1]).value;
      RunInv(value, priority, run[..|run| - 1], p);
      StepInv(p, run[|run| - 1], value);
    } else {
      assert QueueOk(s.sema, Blocked);
    }
  }

  // ---------------------------------------------------------------- what every run keeps

  /** The value is what it started with, plus the signals, minus the waits that got through, and it is
      never negative. */
  lemma ValueConserved(value: nat, priority: seq<nat>, run: seq<Event>, s: State)
    requires After(Initial(value, priority), run) == Some(s)
    ensures s.sema.value == value + s.signals - s.waits >= 0
  {
    RunInv(value, priority, run, s);
  }

  /** The lock covers the look at the list and the wake-up, so no wake-up meets an empty list. */
  lemma NeverBreaks(value: int, priority: seq<nat>, run: seq<Event>, s: State)
    requires After(Initial(value, priority), run) == Some(s)
    ensures !s.sema.broken
  {
    RunInv(value, priority, run, s);
  }

  /** A signal wakes the earliest waiter of the best priority, and that thread tests the value again. */
  lemma SignalWakesFirst(value: int, priority: seq<nat>, run: seq<Event>, s: State, e: Event, i: nat)
    requires After(Initial(value, priority), run) == Some(s) && Enabled(s, e)
    requires s.sema.pcs[e.thread] == Unblocking && 0 < i < |s.sema.queue|
    ensures var m := s.sema; var h := m.queue[0].id;
            && h < |m.pcs| == |m.priority| && m.queue[i].id < |m.pcs| && m.pcs[h] == Blocked
            && Step(s, e).sema.pcs == m.pcs[h := WaitEnter][e.thread := SignalLeave]
            && (m.priority[h] < m.priority[m.queue[i].id]
                || (m.priority[h] == m.priority[m.queue[i].id] && m.queue[0].since < m.queue[i].since))
  {
    RunInv(value, priority, run, s);
    WakesFirst(s.sema, WaitEnter, Blocked, i);
    WakeOk(s.sema, WaitEnter, Blocked);
  }

  ghost predicate PaidWaits(value: int)
  {
    forall priority, run ::
      var r := After(Initial(value, priority), run);
      r.Some? ==> r.value.waits <= (if value < 0 then 0 else value) + r.value.signals
  }

  /** Every wait that gets through has a unit of the start value or a signal to itself, provided the start
      value is not negative: the test is for zero, and a negative value passes it. */
  lemma PaidWaitsIff(value: int)
    ensures PaidWaits(value) <==> value >= 0
  {
    if value >= 0 {
      forall priority, run ensures
        var r := After(Initial(value, priority), run);
        r.Some? ==> r.value.waits <= value + r.value.signals
      {
        var r := After(Initial(value, priority), run);
        if r.Some? { RunInv(value, priority, run, r.value); }
      }
    } else {
      var run, s := NonZeroPasses(value);
    }
  }

  lemma NonZeroPasses(value: int) returns (run: seq<Event>, s: State)
    requires value != 0
    ensures After(Initial(value, [0]), run) == Some(s) && s.waits == 1 && s.signals == 0
  {
    var s0, e := Initial(value, [0]), Event(0, Wait);
    var s1 := s0.(sema := s0.sema.(pcs := [WaitEnter]));
    var s2 := s0.(sema := s0.sema.(pcs := [WaitTest], lock := Some(0)));
    var s3 := s0.(sema := s0.sema.(pcs := [WaitLoad], lock := Some(0)));
    var s4 := s0.(sema := s0.sema.(pcs := [WaitStore(value)], lock := Some(0)));
    s := Step(s4, e);
    assert After(s0, []) == Some(s0);
    hide After;
    Then(s0, [], s0, e, s1);
    Then(s0, [] + [e], s1, e, s2);
    Then(s0, [] + [e] + [e], s2, e, s3);
    Then(s0, [] + [e] + [e] + [e], s3, e, s4);
    Then(s0, [] + [e] + [e] + [e] + [e], s4, e, s);
    run := [] + [e] + [e] + [e] + [e] + [e];
  }

  lemma Then(s: State, run: seq<Event>, p: State, e: Event, p': State)
    requires After(s, run) == Some(p) && Enabled(p, e) && Step(p, e) == p'
    ensures After(s, run + [e]) == Some(p')
  {
    assert (run + [e])[..|run|] == run;
  }
}
