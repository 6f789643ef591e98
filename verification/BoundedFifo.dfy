/** The blocking FIFO of os/ipc.c for any number of putters and getters: three semaphores around a circular
    buffer. A wait or signal is one step of a counter or lock, as CountingSemaphore and BinarySemaphore prove of
    theirs; each load and store of the buffer is another. BinarySemaphore proves it of the mutex as long as no wake-up
    of its b_signal meets an empty list, which can happen to three threads (BinaryWakeups.TwoSignalsBreak); what
    follows then is not part of this module. */
module BoundedFifo {
  import opened Options
  import opened SemaState
  import opened SlotRing

  /** Where a thread is in fifo_put or fifo_get. */
  datatype Pc =
    | Outside
    | PutMutex(x: nat)
    | PutStore(x: nat)
    | PutAdvance(x: nat)
    | PutUnlock
    | PutSignal
    | GetMutex
    | GetLoad
    | GetAdvance(v: nat)
    | GetUnlock
    | GetSignal

  /** full, empty and mutex are the semaphores: two values, and the thread that holds the third. sent and
      received are the values in the order they entered and left the buffer. */
  datatype State = State(
    ring: Ring,
    full: int,
    empty: int,
    mutex: Option<nat>,
    pcs: seq<Pc>,
    sent: seq<nat>,
    received: seq<nat>)

  datatype Call = Put(x: nat) | Get

  datatype Event = Event(thread: nat, call: Call)

  const FIFO_HEADER_SIZE: nat := 40

  /** fifo->size, which fifo_init sets to the bytes of the whole FIFO and put and get divide by. */
  function Modulus(capacity: nat, elementSize: nat): nat { FIFO_HEADER_SIZE + capacity * elementSize }

  /** fifo_init, with threads that have not called anything yet. */
  function Initial(capacity: nat, data: seq<nat>, threads: nat): State
  {
    State(Ring(0, 0, data), capacity, 0, None, seq(threads, i => Outside), [], [])
  }

  predicate Enabled(s: State, e: Event)
  {
    && e.thread < |s.pcs| && s.ring.Valid()
    && match s.pcs[e.thread]
       case Outside => if e.call.Put? then s.full > 0 else s.empty > 0
       case PutMutex(_) => s.mutex == None
       case GetMutex => s.mutex == None
       case _ => true
  }

  function At(s: State, t: nat, pc: Pc): State
    requires t < |s.pcs|
  {
    s.(pcs := s.pcs[t := pc])
  }

  function Step(s: State, e: Event): State
    requires Enabled(s, e)
  {
    var t := e.thread;
    match s.pcs[t]
    case Outside =>
      if e.call.Put? then At(s, t, PutMutex(e.call.x)).(full := s.full - 1) else At(s, t, GetMutex).(empty := s.empty - 1)
    case PutMutex(x) => At(s, t, PutStore(x)).(mutex := Some(t))
    case PutStore(x) => At(s, t, PutAdvance(x)).(ring := s.ring.Store(x))
    case PutAdvance(x) => At(s, t, PutUnlock).(ring := s.ring.AdvanceTail(), sent := s.sent + [x])
    case PutUnlock => At(s, t, PutSignal).(mutex := None)
    case PutSignal => At(s, t, Outside).(empty := s.empty + 1)
    case GetMutex => At(s, t, GetLoad).(mutex := Some(t))
    case GetLoad => At(s, t, GetAdvance(s.ring.data[s.ring.head]))
    case GetAdvance(v) => At(s, t, GetUnlock).(ring := s.ring.AdvanceHead(), received := s.received + [v])
    case GetUnlock => At(s, t, GetSignal).(mutex := None)
    case GetSignal => At(s, t, Outside).(full := s.full + 1)
  }

  ghost function After(s: State, run: seq<Event>): Option<State>
  {
    if run == [] then Some(s)
    else
      var p := After(s, run[..|run| - 1]);
      if p.Some? && Enabled(p.value, run[|run| - 1]) then Some(Step(p.value, run[|run| - 1])) else None
  }

  /** Who holds the mutex. */
  ghost function MutexHolders(s: State): set<nat>
  {
    if s.mutex == None then {} else {s.mutex.value}
  }

  /** A step moves at most one of the three semaphores, and that one as CountingSemaphore and BinarySemaphore
      prove of theirs. */
  lemma StepMovesSemaphores(s: State, e: Event)
    requires Enabled(s, e) && Locked(s) && s.full >= 0 && s.empty >= 0
    ensures var s' := Step(s, e);
            && CounterMoves(s.full, s'.full) && CounterMoves(s.empty, s'.empty)
            && LockStep(MutexHolders(s), MutexHolders(s'), e.thread)
            && (s'.full != s.full ==> s'.empty == s.empty && s'.mutex == s.mutex)
            && (s'.empty != s.empty ==> s'.full == s.full && s'.mutex == s.mutex)
  {
    var t := e.thread;
    assert InMutex(s.pcs[t]) ==> s.mutex == Some(t);
  }

  // ---------------------------------------------------------------- counting threads

  /** What a thread's call has done to the buffer and the counters so far. */
  datatype Phase = NoCall | Filling | Filled | Emptying | Emptied

  function PhaseOf(pc: Pc): Phase
  {
    match pc
    case Outside => NoCall
    case PutMutex(_) => Filling
    case PutStore(_) => Filling
    case PutAdvance(_) => Filling
    case PutUnlock => Filled
    case PutSignal => Filled
    case GetMutex => Emptying
    case GetLoad => Emptying
    case GetAdvance(_) => Emptying
    case GetUnlock => Emptied
    case GetSignal => Emptied
  }

  function One(b: bool): nat { if b then 1 else 0 }

  /** How many threads are in a phase. */
  function Count(pcs: seq<Pc>, phase: Phase): nat
  {
    if pcs == [] then 0 else One(PhaseOf(pcs[0]) == phase) + Count(pcs[1..], phase)
  }

  lemma {:induction false} CountMove(pcs: seq<Pc>, t: nat, pc: Pc, phase: Phase)
    requires t < |pcs|
    ensures Count(pcs[t := pc], phase) == Count(pcs, phase) - One(PhaseOf(pcs[t]) == phase) + One(PhaseOf(pc) == phase)
    ensures Count(pcs, phase) >= One(PhaseOf(pcs[t]) == phase)
  {
    if t > 0 {
      CountMove(pcs[1..], t - 1, pc, phase);
      assert pcs[t := pc][1..] == pcs[1..][t - 1 := pc];
    }
  }

  lemma {:induction false} CountNone(threads: nat, phase: Phase)
    requires phase != NoCall
    ensures Count(seq(threads, i => Outside), phase) == 0
  {
    if threads > 0 {
      CountNone(threads - 1, phase);
      assert seq(threads, i => Outside)[1..] == seq(threads - 1, i => Outside);
    }
  }

  function InFlight(s: State): nat
  {
    Count(s.pcs, Filling) + Count(s.pcs, Filled) + Count(s.pcs, Emptying) + Count(s.pcs, Emptied)
  }

  // ---------------------------------------------------------------- the invariant

  predicate InMutex(pc: Pc)
  {
    pc.PutStore? || pc.PutAdvance? || pc.PutUnlock? || pc.GetLoad? || pc.GetAdvance? || pc.GetUnlock?
  }

  ghost predicate Counted(s: State, capacity: nat)
  {
    && s.full >= 0 && s.empty >= 0 && s.full + s.empty + InFlight(s) == capacity
    && |s.sent| - |s.received| == s.empty + Count(s.pcs, Filled) + Count(s.pcs, Emptying)
  }

  ghost predicate Locked(s: State)
  {
    forall t: nat :: s.mutex == Some(t) <==> t < |s.pcs| && InMutex(s.pcs[t])
  }

  /** What the thread in the mutex has done to the buffer. */
  ghost predicate Knows(s: State, pc: Pc)
  {
    match pc
    case PutAdvance(x) => s.ring.Valid() && s.ring.data[s.ring.tail] == x
    case GetAdvance(v) => |s.received| < |s.sent| && v == s.sent[|s.received|]
    case _ => true
  }

  ghost predicate Inv(s: State, capacity: nat)
  {
    && Counted(s, capacity) && Locked(s)
    && Holds(s.ring, s.sent, |s.received|) && s.received == s.sent[..|s.received|] && capacity < |s.ring.data|
    && (forall t :: 0 <= t < |s.pcs| ==> Knows(s, s.pcs[t]))
  }

  /** The semaphores' values and the threads in flight keep adding up. */
  lemma CountedStep(s: State, e: Event, capacity: nat)
    requires Counted(s, capacity) && Enabled(s, e)
    ensures Counted(Step(s, e), capacity)
  {
    hide Count;
    var t, pc := e.thread, Step(s, e).pcs[e.thread];
    CountMove(s.pcs, t, pc, Filling);
    CountMove(s.pcs, t, pc, Filled);
    CountMove(s.pcs, t, pc, Emptying);
    CountMove(s.pcs, t, pc, Emptied);
  }

  /** A thread that fills has a slot to itself, and one that empties has an item. */
  lemma RoomAndItem(s: State, t: nat, capacity: nat)
    requires Counted(s, capacity) && t < |s.pcs|
    ensures PhaseOf(s.pcs[t]) == Filling ==> |s.sent| - |s.received| < capacity
    ensures PhaseOf(s.pcs[t]) == Emptying ==> |s.received| < |s.sent|
  {
    CountMove(s.pcs, t, Outside, Filling);
    CountMove(s.pcs, t, Outside, Emptying);
  }

  lemma BufferStep(s: State, e: Event, capacity: nat)
    requires Inv(s, capacity) && Enabled(s, e)
    ensures var s' := Step(s, e);
            Holds(s'.ring, s'.sent, |s'.received|) && s'.received == s'.sent[..|s'.received|] && |s'.ring.data| == |s.ring.data|
  {
    hide Counted, Locked;
    var t, r := e.thread, |s.received|;
    assert Knows(s, s.pcs[t]);
    RoomAndItem(s, t, capacity);
    match s.pcs[t]
    case PutStore(x) => StoreHolds(s.ring, s.sent, r, x);
    case PutAdvance(x) => AdvanceTailHolds(s.ring, s.sent, r, x);
    case GetAdvance(v) => AdvanceHeadHolds(s.ring, s.sent, r);
    case _ =>
  }

  lemma LockedStep(s: State, e: Event)
    requires Locked(s) && Enabled(s, e)
    ensures Locked(Step(s, e))
  {
  }

  lemma KnowsStep(s: State, e: Event, capacity: nat, u: nat)
    requires Inv(s, capacity) && Enabled(s, e) && u < |s.pcs|
    ensures Knows(Step(s, e), Step(s, e).pcs[u])
  {
    hide Counted;
    var t := e.thread;
    assert Knows(s, s.pcs[u]);
    if u == t {
      RoomAndItem(s, t, capacity);
    } else if InMutex(s.pcs[u]) {
      assert s.mutex == Some(u) && s.mutex != Some(t);
    }
  }

  lemma StepInv(s: State, e: Event, capacity: nat)
    requires Inv(s, capacity) && Enabled(s, e)
    ensures Inv(Step(s, e), capacity)
  {
    hide Counted, Holds, Locked, Knows;
    CountedStep(s, e, capacity);
    LockedStep(s, e);
    BufferStep(s, e, capacity);
    forall u | 0 <= u < |s.pcs| ensures Knows(Step(s, e), Step(s, e).pcs[u]) { KnowsStep(s, e, capacity, u); }
    SamePcs(s, e);
  }

  lemma SamePcs(s: State, e: Event)
    requires Enabled(s, e)
    ensures |Step(s, e).pcs| == |s.pcs|
  {
  }

  lemma InitialInv(capacity: nat, elementSize: nat, data: seq<nat>, threads: nat)
    requires elementSize > 0 && |data| == Modulus(capacity, elementSize)
    ensures Inv(Initial(capacity, data, threads), capacity)
  {
    CountNone(threads, Filling);
    CountNone(threads, Filled);
    CountNone(threads, Emptying);
    CountNone(threads, Emptied);
    assert capacity * elementSize >= capacity;
  }

  lemma {:induction false} RunInv(capacity: nat, elementSize: nat, data: seq<nat>, threads: nat, run: seq<Event>, s: State)
    requires elementSize > 0 && |data| == Modulus(capacity, elementSize)
    requires After(Initial(capacity, data, threads), run) == Some(s)
    ensures Inv(s, capacity)
  {
    hide Inv, Initial, Modulus;
    if run == [] {
      InitialInv(capacity, elementSize, data, threads);
    } else {
      var p := After(Initial(capacity, data, threads), run[..|run| - 1]).value;
      RunInv(capacity, elementSize, data, threads, run[..|run| - 1], p);
      StepInv(p, run[|run| - 1], capacity);
    }
  }

  // ---------------------------------------------------------------- what every run keeps

  /** The two counting semaphores and the calls under way add up to the capacity. */
  lemma CapacityConserved(capacity: nat, elementSize: nat, data: seq<nat>, threads: nat, run: seq<Event>, s: State)
    requires elementSize > 0 && |data| == Modulus(capacity, elementSize)
    requires After(Initial(capacity, data, threads), run) == Some(s)
    ensures s.full + s.empty + InFlight(s) == capacity
    ensures s.full >= 0 && s.empty >= 0
  {
    RunInv(capacity, elementSize, data, threads, run, s);
  }

  /** Values leave in the order they entered, and no more than the capacity are inside. */
  lemma DeliversInOrder(capacity: nat, elementSize: nat, data: seq<nat>, threads: nat, run: seq<Event>, s: State)
    requires elementSize > 0 && |data| == Modulus(capacity, elementSize)
    requires After(Initial(capacity, data, threads), run) == Some(s)
    ensures s.received <= s.sent && |s.sent| <= |s.received| + capacity
  {
    RunInv(capacity, elementSize, data, threads, run, s);
    CountMoveNone(s, capacity);
  }

  /** No step changes a slot whose value waits to be read. */
  lemma UnreadKept(capacity: nat, elementSize: nat, data: seq<nat>, threads: nat, run: seq<Event>, s: State, e: Event)
    requires elementSize > 0 && |data| == Modulus(capacity, elementSize)
    requires After(Initial(capacity, data, threads), run) == Some(s) && Enabled(s, e)
    ensures var s', n := Step(s, e), |s.ring.data|;
            && n > 0 && |s'.ring.data| == n
            && forall k :: |s'.received| <= k < |s.sent| ==> s'.ring.data[k % n] == s.sent[k]
  {
    hide Inv, Step;
    RunInv(capacity, elementSize, data, threads, run, s);
    StepInv(s, e, capacity);
    InvHolds(s, capacity);
    InvHolds(Step(s, e), capacity);
    SentGrows(s, e);
  }

  /** fifo_size, the value of empty: the values inside, less those whose put or get is under way. When no
      call is under way it is exact, and full is the room that is left. */
  lemma SizeIs(capacity: nat, elementSize: nat, data: seq<nat>, threads: nat, run: seq<Event>, s: State)
    requires elementSize > 0 && |data| == Modulus(capacity, elementSize)
    requires After(Initial(capacity, data, threads), run) == Some(s)
    ensures s.empty == |s.sent| - |s.received| - Count(s.pcs, Filled) - Count(s.pcs, Emptying)
    ensures InFlight(s) == 0 ==> s.empty == |s.sent| - |s.received| && s.full == capacity - (|s.sent| - |s.received|)
  {
    RunInv(capacity, elementSize, data, threads, run, s);
  }

  lemma CountMoveNone(s: State, capacity: nat)
    requires Counted(s, capacity)
    ensures |s.sent| <= |s.received| + capacity
  {
  }

  lemma InvHolds(s: State, capacity: nat)
    requires Inv(s, capacity)
    ensures Holds(s.ring, s.sent, |s.received|)
  {
  }

  lemma SentGrows(s: State, e: Event)
    requires Enabled(s, e)
    ensures s.sent <= Step(s, e).sent && |Step(s, e).ring.data| == |s.ring.data|
  {
  }
}
