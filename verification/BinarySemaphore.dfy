/** b_wait and b_signal of os/semaphore.c, one load, store or lock operation at a time, for any number of
    threads in any order. Only a thread that got past b_wait calls b_signal. */
module BinarySemaphore {
  import opened Options
  import opened SemaState

  /** Where a thread is: Wait... in atomic_test_and_set, Clear... in atomic_clear, then b_signal. */
  datatype Pc =
    | Outside
    | WaitEnter
    | WaitLoad
    | WaitStore(rv: int)
    | WaitLeave(rv: int)
    | Blocking
    | Blocked
    | Inside
    | ClearEnter
    | ClearStore
    | ClearLeave
    | RootCheck
    | Unblocking

  type State = Sema<Pc>

  /** init_semaphore(sem, 0), and nobody uses it yet. */
  function Initial(priority: seq<nat>): State
  {
    Sema(0, None, [], seq(|priority|, i => Outside), priority, 0, false)
  }

  /** A blocked thread waits to be woken, and spinlock 31 is taken only when it is free. */
  predicate Enabled(s: State, t: nat)
  {
    && t < |s.pcs| && !s.broken && s.pcs[t] != Blocked
    && (s.pcs[t] in {WaitEnter, ClearEnter} ==> s.lock == None)
  }

  function Step(s: State, t: nat): State
    requires Enabled(s, t)
  {
    match s.pcs[t]
    case Outside => At(s, t, WaitEnter)
    case WaitEnter => At(s, t, WaitLoad).(lock := Some(t))
    case WaitLoad => At(s, t, WaitStore(s.value))
    case WaitStore(rv) => At(s, t, WaitLeave(rv)).(value := 1)
    case WaitLeave(rv) => At(s, t, if rv == 0 then Inside else Blocking).(lock := None)
    case Blocking => Park(s, t, Blocked)
    case Blocked => s
    case Inside => At(s, t, ClearEnter)
    case ClearEnter => At(s, t, ClearStore).(lock := Some(t))
    case ClearStore => At(s, t, ClearLeave).(value := 0)
    case ClearLeave => At(s, t, RootCheck).(lock := None)
    case RootCheck => At(s, t, if s.queue != [] then Unblocking else Outside)
    case Unblocking => At(Wake(s, WaitEnter), t, Outside)
  }

  /** The state after the threads in run each took a step, if they could. */
  ghost function After(s: State, run: seq<nat>): Option<State>
  {
    if run == [] then Some(s)
    else
      var p := After(s, run[..|run| - 1]);
      if p.Some? && Enabled(p.value, run[|run| - 1]) then Some(Step(p.value, run[|run| - 1])) else None
  }

  /** The thread found the semaphore at 0 and has not set it back to 0. */
  predicate Holds(pc: Pc) { pc in {WaitLeave(0), Inside, ClearEnter, ClearStore} }

  ghost function Holders(s: State): set<nat>
  {
    set t | 0 <= t < |s.pcs| && Holds(s.pcs[t])
  }

  predicate HasLock(pc: Pc) { pc.WaitLoad? || pc.WaitStore? || pc.WaitLeave? || pc.ClearStore? || pc.ClearLeave? }

  ghost predicate Inv(s: State)
  {
    && QueueOk(s, Blocked)
    && (forall t: nat :: s.lock == Some(t) <==> t < |s.pcs| && HasLock(s.pcs[t]))
    && (forall t :: 0 <= t < |s.pcs| && s.pcs[t].WaitStore? ==> s.pcs[t].rv == s.value)
    && (s.value == 0 || s.value == 1)
    && (s.value == 0 ==> Holders(s) == {})
    && (s.value == 1 ==> exists h :: Holders(s) == {h})
  }

  lemma StepInv(s: State, t: nat)
    requires Inv(s) && Enabled(s, t)
    ensures Step(s, t).broken || Inv(Step(s, t))
    ensures LockStep(Holders(s), Holders(Step(s, t)), t)
    ensures Step(s, t).broken <==> s.pcs[t] == Unblocking && s.queue == []
  {
    if s.pcs[t] == Unblocking {
      UnblockInv(s, t);
    } else if s.pcs[t] == Blocking {
      ParkOk(s, t, Blocked);
      assert Holders(Step(s, t)) == Holders(s);
    } else {
      MoveInv(s, t);
    }
  }

  lemma UnblockInv(s: State, t: nat)
    requires Inv(s) && Enabled(s, t) && s.pcs[t] == Unblocking
    ensures Step(s, t).broken || Inv(Step(s, t))
    ensures Holders(Step(s, t)) == Holders(s)
    ensures Step(s, t).broken <==> s.queue == []
  {
    hide QueueOk;
    if s.queue != [] {
      var w := Wake(s, WaitEnter);
      WakeOk(s, WaitEnter, Blocked);
      assert s.queue[0].id != t && w.pcs[t] == Unblocking;
      ElsewhereOk(w, Step(s, t), t, Blocked);
    }
    assert Holders(Step(s, t)) == Holders(s);
  }

  lemma MoveInv(s: State, t: nat)
    requires Inv(s) && Enabled(s, t) && s.pcs[t] != Unblocking && s.pcs[t] != Blocking
    ensures Inv(Step(s, t)) && !Step(s, t).broken
    ensures LockStep(Holders(s), Holders(Step(s, t)), t)
  {
    hide QueueOk, Holders;
    var s' := Step(s, t);
    ElsewhereOk(s, s', t, Blocked);
    HoldersMove(s, s', t);
    HoldersMember(s, t);
  }

  lemma HoldersMember(s: State, t: nat)
    requires t < |s.pcs|
    ensures t in Holders(s) <==> Holds(s.pcs[t])
  {
  }

  lemma HoldersMove(s: State, s': State, t: nat)
    requires t < |s.pcs| == |s'.pcs| && s'.pcs == s.pcs[t := s'.pcs[t]]
    ensures Holders(s') == if Holds(s'.pcs[t]) then Holders(s) + {t} else Holders(s) - {t}
  {
  }

  lemma InitialInv(priority: seq<nat>)
    ensures Inv(Initial(priority))
  {
  }

  /** Every run keeps the invariant, up to a wake-up of nobody. */
  lemma {:induction false} RunInv(priority: seq<nat>, run: seq<nat>, s: State)
    requires After(Initial(priority), run) == Some(s)
    ensures s.broken || Inv(s)
    ensures |Holders(s)| <= 1
  {
    if run == [] {
      InitialInv(priority);
    } else {
      var p, t := After(Initial(priority), run[..|run| - 1]).value, run[|run| - 1];
      RunInv(priority, run[..|run| - 1], p);
      StepInv(p, t);
    }
  }

  // ---------------------------------------------------------------- what every run keeps

  /** Mutual exclusion: no two threads are past b_wait at once, woken waiters and newcomers alike. */
  lemma MutualExclusion(priority: seq<nat>, run: seq<nat>, s: State, t: nat, u: nat)
    requires After(Initial(priority), run) == Some(s) && t < u < |s.pcs|
    ensures !(s.pcs[t] == Inside && s.pcs[u] == Inside)
  {
    RunInv(priority, run, s);
    if s.pcs[t] == Inside && s.pcs[u] == Inside {
      assert {t, u} <= Holders(s) && |{t, u}| == 2;
      SubsetSize({t, u}, Holders(s));
      assert false;
    }
  }

  lemma {:induction false} SubsetSize(a: set<nat>, b: set<nat>)
    requires a <= b
    ensures |a| <= |b|
  {
    if a != {} {
      var x :| x in a;
      SubsetSize(a - {x}, b - {x});
    }
  }

  /** The value is 1 exactly while a thread holds the semaphore. */
  lemma ValueTellsHolder(priority: seq<nat>, run: seq<nat>, s: State)
    requires After(Initial(priority), run) == Some(s) && !s.broken
    ensures s.value in {0, 1} && (s.value == 1 <==> exists t :: 0 <= t < |s.pcs| && Holds(s.pcs[t]))
  {
    RunInv(priority, run, s);
    if s.value == 1 {
      var h :| Holders(s) == {h};
      assert h in Holders(s);
    }
    if t :| 0 <= t < |s.pcs| && Holds(s.pcs[t]) {
      assert t in Holders(s);
    }
  }

  /** A signal that wakes somebody wakes the earliest waiter of the best priority, and that thread tests
      the semaphore again. */
  lemma SignalWakesFirst(priority: seq<nat>, run: seq<nat>, s: State, t: nat, i: nat)
    requires After(Initial(priority), run) == Some(s) && Enabled(s, t) && s.pcs[t] == Unblocking && 0 < i < |s.queue|
    ensures var h := s.queue[0].id;
            && h < |s.pcs| == |s.priority| && s.queue[i].id < |s.pcs| && s.pcs[h] == Blocked && Step(s, t).pcs == s.pcs[h := WaitEnter][t := Outside]
            && (s.priority[h] < s.priority[s.queue[i].id]
                || (s.priority[h] == s.priority[s.queue[i].id] && s.queue[0].since < s.queue[i].since))
  {
    RunInv(priority, run, s);
    WakesFirst(s, WaitEnter, Blocked, i);
    WakeOk(s, WaitEnter, Blocked);
  }
}
