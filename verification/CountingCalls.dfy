/** c_wait and c_signal as whole calls: what one does that nobody interrupts, whatever the other threads are at. */
module CountingCalls {
  import opened Options
  import opened WaitQueue
  import opened SemaState
  import opened CountingSemaphore

  /** What n steps of t make of s when nobody else moves. */
  ghost function Alone(s: State, t: nat, call: Call, n: nat): Option<State>
  {
    After(s, seq(n, i => Event(t, call)))
  }

  lemma AloneThen(s: State, t: nat, call: Call, n: nat)
    requires Alone(s, t, call, n).Some? && Enabled(Alone(s, t, call, n).value, Event(t, call))
    ensures Alone(s, t, call, n + 1) == Some(Step(Alone(s, t, call, n).value, Event(t, call)))
  {
    assert seq(n + 1, i => Event(t, call)) == seq(n, i => Event(t, call)) + [Event(t, call)];
    Then(s, seq(n, i => Event(t, call)), Alone(s, t, call, n).value, Event(t, call), Step(Alone(s, t, call, n).value, Event(t, call)));
  }

  lemma AloneStart(s: State, t: nat, call: Call)
    ensures Alone(s, t, call, 0) == Some(s)
  {
  }

  /** A thread that can start a call: it is in none, and the lock is free. */
  predicate CanCall(m: Sema<Pc>, t: nat)
  {
    t < |m.pcs| && m.pcs[t] == Outside && m.lock == None && !m.broken
  }

  /** c_wait on a value that is not zero takes one unit and returns. */
  lemma WaitTakes(s: State, t: nat)
    requires CanCall(s.sema, t) && s.sema.value != 0
    ensures Alone(s, t, Wait, 6) == Some(State(s.sema.(value := s.sema.value - 1), s.signals, s.waits + 1))
  {
    hide Alone;
    AloneStart(s, t, Wait);
    AloneThen(s, t, Wait, 0);
    AloneThen(s, t, Wait, 1);
    AloneThen(s, t, Wait, 2);
    AloneThen(s, t, Wait, 3);
    AloneThen(s, t, Wait, 4);
    AloneThen(s, t, Wait, 5);
    assert Alone(s, t, Wait, 6).value.sema.pcs == s.sema.pcs;
  }

  /** On zero it joins the list, by its priority, and changes nothing else. */
  lemma WaitParks(s: State, t: nat)
    requires CanCall(s.sema, t) && s.sema.value == 0 && |s.sema.priority| == |s.sema.pcs|
    ensures var m := s.sema;
            Alone(s, t, Wait, 5) == Some(s.(sema := m.(pcs := m.pcs[t := Blocked],
                                                       queue := Insert(m.queue, Waiter(t, m.priority[t], m.arrivals)),
                                                       arrivals := m.arrivals + 1)))
  {
    hide Alone, Insert;
    AloneStart(s, t, Wait);
    AloneThen(s, t, Wait, 0);
    AloneThen(s, t, Wait, 1);
    AloneThen(s, t, Wait, 2);
    AloneThen(s, t, Wait, 3);
    AloneThen(s, t, Wait, 4);
    assert Alone(s, t, Wait, 5).value.sema.pcs == s.sema.pcs[t := Blocked];
  }

  /** A step outside the lock does not depend on who holds it or on the value. */
  lemma LockUnseen(s: State, e: Event, lock: Option<nat>, value: int)
    requires Enabled(s, e) && !HasLock(s.sema.pcs[e.thread]) && s.sema.pcs[e.thread] != WaitEnter && s.sema.pcs[e.thread] != SignalEnter
    ensures var s' := s.(sema := s.sema.(lock := lock, value := value));
            Enabled(s', e) && Step(s', e) == Step(s, e).(sema := Step(s, e).sema.(lock := lock, value := value))
  {
    hide Insert;
  }

  /** c_signal with nobody in the list adds one unit. */
  lemma SignalAdds(s: State, t: nat)
    requires CanCall(s.sema, t) && s.sema.queue == []
    ensures Alone(s, t, Signal, 6) == Some(State(s.sema.(value := s.sema.value + 1), s.signals + 1, s.waits))
  {
    hide Alone;
    AloneStart(s, t, Signal);
    AloneThen(s, t, Signal, 0);
    AloneThen(s, t, Signal, 1);
    AloneThen(s, t, Signal, 2);
    AloneThen(s, t, Signal, 3);
    AloneThen(s, t, Signal, 4);
    AloneThen(s, t, Signal, 5);
    assert Alone(s, t, Signal, 6).value.sema.pcs == s.sema.pcs;
  }

  /** Otherwise it also takes the head out of the list, and that thread will test again. */
  lemma SignalWakes(s: State, t: nat)
    requires CanCall(s.sema, t) && s.sema.queue != [] && s.sema.queue[0].id < |s.sema.pcs| && s.sema.queue[0].id != t
    ensures var m := s.sema;
            Alone(s, t, Signal, 7) == Some(State(m.(value := m.value + 1, queue := m.queue[1..], pcs := m.pcs[m.queue[0].id := WaitEnter]),
                                                 s.signals + 1, s.waits))
  {
    hide Alone;
    AloneStart(s, t, Signal);
    AloneThen(s, t, Signal, 0);
    AloneThen(s, t, Signal, 1);
    AloneThen(s, t, Signal, 2);
    AloneThen(s, t, Signal, 3);
    AloneThen(s, t, Signal, 4);
    AloneThen(s, t, Signal, 5);
    AloneThen(s, t, Signal, 6);
    assert Alone(s, t, Signal, 7).value.sema.pcs == s.sema.pcs[s.sema.queue[0].id := WaitEnter];
  }

  /** A thread that was woken, tests again and finds a unit, returns with it. */
  lemma RetryTakes(s: State, t: nat)
    requires t < |s.sema.pcs| && s.sema.pcs[t] == WaitEnter && s.sema.lock == None && !s.sema.broken && s.sema.value != 0
    ensures Alone(s, t, Wait, 5) == Some(State(s.sema.(value := s.sema.value - 1, pcs := s.sema.pcs[t := Outside]), s.signals, s.waits + 1))
  {
    hide Alone;
    AloneStart(s, t, Wait);
    AloneThen(s, t, Wait, 0);
    AloneThen(s, t, Wait, 1);
    AloneThen(s, t, Wait, 2);
    AloneThen(s, t, Wait, 3);
    AloneThen(s, t, Wait, 4);
    assert Alone(s, t, Wait, 5).value.sema.pcs == s.sema.pcs[t := Outside];
  }

  /** A signal hands its unit to the first waiter: the value is what it was, and the waiter is out. */
  lemma SignalHandsOver(s: State, t: nat)
    requires SemaOk(s.sema) && CanCall(s.sema, t) && s.sema.queue != [] && s.sema.value == 0
    ensures var h := s.sema.queue[0].id;
            && h < |s.sema.pcs| && s.sema.pcs[h] == Blocked && Alone(s, t, Signal, 7).Some?
            && Alone(Alone(s, t, Signal, 7).value, h, Wait, 5)
               == Some(State(s.sema.(queue := s.sema.queue[1..], pcs := s.sema.pcs[h := Outside]), s.signals + 1, s.waits + 1))
  {
    hide Alone;
    WakeOk(s.sema, WaitEnter, Blocked);
    SignalWakes(s, t);
    RetryTakes(Alone(s, t, Signal, 7).value, s.sema.queue[0].id);
    var h := s.sema.queue[0].id;
    assert s.sema.pcs[h := WaitEnter][h := Outside] == s.sema.pcs[h := Outside];
  }
}
