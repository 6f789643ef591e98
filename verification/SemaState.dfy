/** What the two kinds of semaphore of os/semaphore.c have in common: the Sema4 record, the spinlock
    that guards its value, and where each of any number of threads is in its call. */
module SemaState {
  import opened Options
  import opened WaitQueue

  /** pcs and priority are indexed by thread. broken: a wake-up read the root of an empty list. */
  datatype Sema<Pc> = Sema(
    value: int,
    lock: Option<nat>,
    queue: seq<Waiter>,
    pcs: seq<Pc>,
    priority: seq<nat>,
    arrivals: nat,
    broken: bool)

  /** A counter as one atomic operation leaves it: alone, one more, or one less if it was not zero. */
  predicate CounterMoves(value: int, value': int)
  {
    value' == value || value' == value + 1 || (value != 0 && value' == value - 1)
  }

  /** A lock as one atomic operation of thread t leaves it, told by who holds it: alone, from nobody to t, or from
      t to nobody. */
  ghost predicate LockStep(before: set<nat>, after: set<nat>, t: nat)
  {
    after == before || (before == {} && after == {t}) || (before == {t} && after == {})
  }

  function At<Pc>(s: Sema<Pc>, t: nat, pc: Pc): Sema<Pc>
  {
    if t < |s.pcs| then s.(pcs := s.pcs[t := pc]) else s
  }

  /** sched_block: the thread waits in order of priority. */
  function Park<Pc>(s: Sema<Pc>, t: nat, blocked: Pc): Sema<Pc>
  {
    var key := if t < |s.priority| then s.priority[t] else 0;
    At(s, t, blocked).(queue := Insert(s.queue, Waiter(t, key, s.arrivals)), arrivals := s.arrivals + 1)
  }

  /** sched_unblock: the root of the list leaves it. */
  function Wake<Pc>(s: Sema<Pc>, retry: Pc): Sema<Pc>
  {
    if s.queue == [] then s.(broken := true)
    else At(s, s.queue[0].id, retry).(queue := s.queue[1..])
  }

  /** The list is sorted and holds exactly the threads that are blocked, each once. */
  ghost predicate QueueOk<Pc>(s: Sema<Pc>, blocked: Pc)
  {
    && |s.priority| == |s.pcs|
    && Sorted(s.queue) && Distinct(s.queue)
    && (forall x :: x in s.queue ==> x.since < s.arrivals && x.id < |s.pcs| && x.key == s.priority[x.id])
    && (forall t: nat :: Waits(s.queue, t) <==> t < |s.pcs| && s.pcs[t] == blocked)
  }

  lemma ElsewhereOk<Pc>(s: Sema<Pc>, s': Sema<Pc>, t: nat, blocked: Pc)
    requires QueueOk(s, blocked) && t < |s.pcs| == |s'.pcs| && s.pcs[t] != blocked && s'.pcs[t] != blocked
    requires s'.pcs == s.pcs[t := s'.pcs[t]]
    requires s'.queue == s.queue && s'.priority == s.priority && s'.arrivals == s.arrivals
    ensures QueueOk(s', blocked)
  {
  }

  lemma ParkOk<Pc>(s: Sema<Pc>, t: nat, blocked: Pc)
    requires QueueOk(s, blocked) && t < |s.pcs| && s.pcs[t] != blocked
    ensures QueueOk(Park(s, t, blocked), blocked)
  {
    var w := Waiter(t, s.priority[t], s.arrivals);
    forall i | 0 <= i < |s.queue| ensures s.queue[i].since < w.since { assert s.queue[i] in s.queue; }
    InsertSorted(s.queue, w);
    InsertWaits(s.queue, w);
  }

  lemma WakeOk<Pc>(s: Sema<Pc>, retry: Pc, blocked: Pc)
    requires QueueOk(s, blocked) && s.queue != [] && retry != blocked
    ensures s.queue[0].id < |s.pcs| && s.pcs[s.queue[0].id] == blocked
    ensures QueueOk(Wake(s, retry), blocked)
  {
    assert Waits(s.queue, s.queue[0].id);
    PopWaits(s.queue);
  }

  /** The thread a wake-up takes has waited longest among those of the best priority. */
  lemma WakesFirst<Pc>(s: Sema<Pc>, retry: Pc, blocked: Pc, i: nat)
    requires QueueOk(s, blocked) && 0 < i < |s.queue| && retry != blocked
    ensures var h := s.queue[0].id;
            && h < |s.pcs| && Wake(s, retry).pcs == s.pcs[h := retry]
            && (s.priority[h] < s.priority[s.queue[i].id]
                || (s.priority[h] == s.priority[s.queue[i].id] && s.queue[0].since < s.queue[i].since))
  {
    HeadIsFirst(s.queue, i);
  }
}
