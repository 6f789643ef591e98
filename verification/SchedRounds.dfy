/** Round robin on the best level, over runs in which other things happen too. */
module SchedRounds {
  import opened Modulo
  import opened Options
  import opened RingSeq
  import opened SchedModel
  import opened SchedPlacement
  import opened SchedSafety
  import opened SchedTheorems

  /** Level p is the best one, core c runs one of its threads, and the other core does not own its root. */
  ghost predicate Ready(s: Sched, c: nat, p: nat)
  {
    && Inv(s) && c < 2 && p < PRIORITY_LVL_CNT
    && !s.cores[c].pending && s.cores[c].runPt.Thread?
    && s.Has(s.cores[c].runPt.id) && s.threads[s.cores[c].runPt.id].priority == p
    && (forall q :: 0 <= q < p ==> s.activeCnt[q] == 0)
    && s.rings[p] != [] && s.cores[1 - c].Owned() != Thread(s.rings[p][0])
  }

  /** Then schedule picks the root and moves it to the end of the ring. */
  lemma SchedulePicksRoot(s: Sched, c: nat, p: nat)
    requires Ready(s, c, p)
    ensures var s' := Schedule(s, c);
            && Inv(s') && s'.Shape() && s'.cores[c].pending && s'.cores[c].runPt == s.cores[c].runPt && s'.cores[c].nextRunPt == Thread(s.rings[p][0])
            && s'.cores[1 - c] == s.cores[1 - c]
            && s'.rings[p] == Rotate(s.rings[p])
            && (forall q :: 0 <= q < p ==> s'.activeCnt[q] == 0)
            && (forall t :: t in s.threads <==> t in s'.threads) && (forall t :: t in s.threads ==> s'.threads[t].priority == s.threads[t].priority)
  {
    hide Inv, Between, PickedBest, BestPriority, Pick, PutBack;
    ReadyPutBack(s, c, p);
    var s1 := PutBack(s, c);
    RootIsActive(s, c, p);
    PickInv(s1, c);
    PickRoot(s1, c, p);
  }

  lemma ReadyPutBack(s: Sched, c: nat, p: nat)
    requires Ready(s, c, p)
    ensures s.Shape() && c < 2
    ensures var s1 := PutBack(s, c);
            && Between(s1, c) && s1.cores == s.cores
            && (forall q :: 0 <= q < p ==> s1.activeCnt[q] == 0)
            && (forall t :: t in s.threads <==> t in s1.threads) && (forall t :: t in s.threads ==> s1.threads[t].priority == s.threads[t].priority)
  {
    PutBackBetween(s, c);
  }

  lemma PickRoot(s: Sched, c: nat, p: nat)
    requires s.Shape() && c < 2 && p < PRIORITY_LVL_CNT && BestPriority(s.activeCnt, 0) == p
    requires s.rings[p] != [] && s.rings[p][0] in s.threads && s.threads[s.rings[p][0]].state == ACTIVE
    ensures var s', root := Pick(s, c), s.rings[p][0];
            && s'.cores[c] == s.cores[c].(nextRunPt := Thread(root), pending := true) && s'.cores[1 - c] == s.cores[1 - c]
            && s'.rings[p] == Rotate(s.rings[p]) && s'.threads == s.threads[root := s.threads[root].(state := RUNNING)]
            && forall q :: 0 <= q < p ==> s'.activeCnt[q] == s.activeCnt[q]
  {
  }

  /** After putting its own thread back, core c finds level p first, with an active root. */
  lemma RootIsActive(s: Sched, c: nat, p: nat)
    requires Ready(s, c, p)
    ensures var s1 := PutBack(s, c);
            && s1.rings == s.rings && BestPriority(s1.activeCnt, 0) == p
            && s.rings[p][0] in s1.threads && s1.threads[s.rings[p][0]].state == ACTIVE
  {
    var s1, t := PutBack(s, c), s.cores[c].runPt.id;
    PutBackBetween(s, c);
    SelfRuns(s, c);
    ActiveIsCounted(s1, t);
    FirstLevel(s1.activeCnt, p, 0);
    RingPlace(s1, p);
    assert s.rings[p][0] in s1.rings[p];
  }

  lemma {:induction false} FirstLevel(active: seq<int>, p: nat, from: nat)
    requires from <= p < IDLE_PRIORITY == |active| - 1 && active[p] != 0
    requires forall q :: from <= q < p ==> active[q] == 0
    ensures BestPriority(active, from) == p
    decreases p - from
  {
    if from < p { FirstLevel(active, p, from + 1); }
  }

  // ---------------------------------------------------------------- runs

  /** An event that leaves levels up to p alone: time, the alarm, a switch, a new semaphore, and threads of
      higher numbers that are created or woken. */
  predicate Quiet(s: Sched, e: Event, p: nat)
  {
    match e
    case Wait(_) => true
    case AlarmFires => true
    case SwitchContext(_) => true
    case InitSemaphore(_) => true
    case Create(priority) => priority > p
    case Signal(sem) => s.Blocked(sem) != [] && s.Has(s.Blocked(sem)[0].id) && s.threads[s.Blocked(sem)[0].id].priority > p
    case HandleAlarm(_, _) => s.sleepers != [] && s.Has(s.sleepers[0].id) && s.threads[s.sleepers[0].id].priority > p
    case _ => false
  }

  /** Which core's turn comes after n turns: core c's always, or the cores' alternately. */
  function TurnOf(c: nat, alternate: bool, n: nat): nat
    requires c < 2
  {
    if alternate && n % 2 == 1 then 1 - c else c
  }

  /** How often a run calls schedule. */
  function Turns(events: seq<Event>): nat
  {
    if events == [] then 0 else Turns(events[..|events| - 1]) + if events[|events| - 1].Reschedule? then 1 else 0
  }

  /** A run in which schedule is called by the core whose turn it is and everything else is quiet. */
  ghost predicate RoundRun(s: Sched, c: nat, p: nat, alternate: bool, events: seq<Event>)
    requires c < 2
  {
    var r := After(s, events);
    && r.Some?
    && (events != [] ==>
          var before, e := events[..|events| - 1], events[|events| - 1];
          && RoundRun(s, c, p, alternate, before)
          && (e == Reschedule(TurnOf(c, alternate, Turns(before))) || Quiet(After(s, before).value, e, p)))
  }

  /** Core c's turn is next: it owns a thread of the best level p; alone, the other core owns none of its
      threads; alternating, the other core owns the one picked last. */
  ghost predicate RoundStarts(s: Sched, c: nat, p: nat, alternate: bool)
  {
    && Inv(s) && c < 2 && p < PRIORITY_LVL_CNT
    && s.cores[c].Owned().Thread? && s.cores[c].runPt != Unset
    && s.Has(s.cores[c].Owned().id) && s.threads[s.cores[c].Owned().id].priority == p
    && (forall q :: 0 <= q < p ==> s.activeCnt[q] == 0)
    && var other, ring := s.cores[1 - c].Owned(), s.rings[p];
       ring != [] && if alternate then other == Thread(ring[|ring| - 1]) else !other.Thread? || other.id !in ring
  }

  /** Between turns, only the rings and counters of levels up to p and what the cores own matter. */
  lemma RoundFrame(s: Sched, s': Sched, c: nat, p: nat, alternate: bool)
    requires RoundStarts(s, c, p, alternate) && Inv(s')
    requires forall q :: 0 <= q <= p ==> s'.rings[q] == s.rings[q] && s'.activeCnt[q] == s.activeCnt[q]
    requires s'.cores[c].runPt == Unset ==> s.cores[c].runPt == Unset
    requires forall d :: 0 <= d < 2 ==> s'.cores[d].Owned() == s.cores[d].Owned()
    requires s.cores[c].Owned().Thread? ==> s'.Has(s.cores[c].Owned().id) && s'.threads[s.cores[c].Owned().id].priority == p
    ensures RoundStarts(s', c, p, alternate)
  {
  }

  lemma QuietKeeps(s: Sched, c: nat, p: nat, alternate: bool, e: Event)
    requires RoundStarts(s, c, p, alternate) && Enabled(s, e) && Quiet(s, e, p)
    ensures RoundStarts(Step(s, e), c, p, alternate) && Step(s, e).rings[p] == s.rings[p]
  {
    StepInv(s, e);
    QuietFrame(s, c, p, alternate, e);
    hide Inv, Step;
    RoundFrame(s, Step(s, e), c, p, alternate);
  }

  lemma QuietFrame(s: Sched, c: nat, p: nat, alternate: bool, e: Event)
    requires RoundStarts(s, c, p, alternate) && Enabled(s, e) && Quiet(s, e, p)
    ensures var s' := Step(s, e);
            && s'.Shape() && (forall q :: 0 <= q <= p ==> s'.rings[q] == s.rings[q] && s'.activeCnt[q] == s.activeCnt[q])
            && (forall d :: 0 <= d < 2 ==> s'.cores[d].Owned() == s.cores[d].Owned())
            && (s'.cores[c].runPt == Unset ==> s.cores[c].runPt == Unset)
            && (s.cores[c].Owned().Thread? ==> s'.Has(s.cores[c].Owned().id) && s'.threads[s.cores[c].Owned().id].priority == p)
  {
  }

  lemma TurnKeeps(s: Sched, c: nat, p: nat, alternate: bool)
    requires RoundStarts(s, c, p, alternate) && Enabled(s, Reschedule(c))
    ensures s.rings[p] != [] && Schedule(s, c).cores[c].nextRunPt == Thread(s.rings[p][0])
    ensures RoundStarts(Schedule(s, c), if alternate then 1 - c else c, p, alternate) && Schedule(s, c).rings[p] == Rotate(s.rings[p])
  {
    RoundReady(s, c, p, alternate);
    hide Inv, Ready, Schedule, RoundStarts;
    SchedulePicksRoot(s, c, p);
    TurnFrame(s, Schedule(s, c), c, p, alternate);
  }

  /** After a turn the core owns the old root, which is the last of its ring now. */
  lemma TurnFrame(s: Sched, s': Sched, c: nat, p: nat, alternate: bool)
    requires RoundStarts(s, c, p, alternate) && s.Shape() && Inv(s') && s'.Shape()
    requires s.Has(s.rings[p][0]) && s.threads[s.rings[p][0]].priority == p
    requires alternate ==> s.Has(s.rings[p][|s.rings[p]| - 1]) && s.threads[s.rings[p][|s.rings[p]| - 1]].priority == p
    requires s'.cores[c].pending && s'.cores[c].nextRunPt == Thread(s.rings[p][0]) && s'.cores[1 - c] == s.cores[1 - c]
    requires s'.cores[c].runPt == Unset ==> s.cores[c].runPt == Unset
    requires s.cores[1 - c].Owned().Thread? ==> s.cores[1 - c].runPt != Unset
    requires s'.rings[p] == Rotate(s.rings[p]) && forall q :: 0 <= q < p ==> s'.activeCnt[q] == 0
    requires forall t :: t in s.threads <==> t in s'.threads
    requires forall t :: t in s.threads ==> s'.threads[t].priority == s.threads[t].priority
    ensures RoundStarts(s', if alternate then 1 - c else c, p, alternate)
  {
    hide Inv, Rotate;
    RotateMembers(s.rings[p]);
  }

  lemma RoundReady(s: Sched, c: nat, p: nat, alternate: bool)
    requires RoundStarts(s, c, p, alternate) && Enabled(s, Reschedule(c))
    ensures Ready(s, c, p)
    ensures alternate ==> s.Has(s.rings[p][|s.rings[p]| - 1]) && s.threads[s.rings[p][|s.rings[p]| - 1]].priority == p
    ensures s.Has(s.rings[p][0]) && s.threads[s.rings[p][0]].priority == p
    ensures s.cores[1 - c].Owned().Thread? ==> s.cores[1 - c].runPt != Unset
    ensures s.cores[c].runPt != Unset && s.Shape()
  {
    var ring := s.rings[p];
    assert RingOk(s, p, {});
    assert ring[0] in ring && ring[|ring| - 1] in ring;
    if alternate {
      var t := s.cores[c].Owned().id;
      assert t in OwnedBy(s, c) && ring[|ring| - 1] in OwnedBy(s, 1 - c);
      RingPlace(s, p);
      assert t in ring;
    }
    hide Inv, RingOk;
  }

  lemma RotateMembers(ring: seq<Tid>)
    requires ring != []
    ensures |Rotate(ring)| == |ring| && Rotate(ring)[|ring| - 1] == ring[0] && forall t :: t in Rotate(ring) <==> t in ring
  {
  }

  function RotateBy<T>(ring: seq<T>, n: nat): seq<T>
  {
    if n == 0 then ring else Rotate(RotateBy(ring, n - 1))
  }

  lemma {:induction false} RotateByAt<T>(ring: seq<T>, n: nat, i: nat)
    requires i < |ring|
    ensures |RotateBy(ring, n)| == |ring| && RotateBy(ring, n)[i] == ring[(i + n) % |ring|]
  {
    if n == 0 {
      ModSmall(i, |ring|);
    } else if i + 1 < |ring| {
      RotateByAt(ring, n - 1, i + 1);
    } else {
      RotateByAt(ring, n - 1, 0);
      ModPlus(n - 1, |ring|, |ring|);
    }
  }

  /** The last event of such a run. */
  lemma LastOf(s: Sched, c: nat, p: nat, alternate: bool, events: seq<Event>)
    requires c < 2 && RoundRun(s, c, p, alternate, events) && events != []
    ensures var before, e := events[..|events| - 1], events[|events| - 1];
            && RoundRun(s, c, p, alternate, before) && After(s, before).Some?
            && Enabled(After(s, before).value, e) && After(s, events) == Some(Step(After(s, before).value, e))
            && (e == Reschedule(TurnOf(c, alternate, Turns(before))) || Quiet(After(s, before).value, e, p))
            && Turns(events) == Turns(before) + if e.Reschedule? then 1 else 0
  {
    hide Step, Quiet, Enabled;
  }

  /** After any such run the ring has moved on once for each turn. */
  lemma {:induction false} RoundGoesOn(s: Sched, c: nat, p: nat, alternate: bool, events: seq<Event>)
    requires RoundStarts(s, c, p, alternate) && RoundRun(s, c, p, alternate, events)
    ensures After(s, events).Some?
    ensures var w := After(s, events).value;
            RoundStarts(w, TurnOf(c, alternate, Turns(events)), p, alternate) && w.rings[p] == RotateBy(s.rings[p], Turns(events))
  {
    hide RoundStarts, Quiet, Step, Rotate, RoundRun, After, Turns;
    RoundShape(s, c, p, alternate);
    if events == [] {
      NoEvents(s);
    } else {
      var before, e := events[..|events| - 1], events[|events| - 1];
      LastOf(s, c, p, alternate, events);
      RoundGoesOn(s, c, p, alternate, before);
      var w, d := After(s, before).value, TurnOf(c, alternate, Turns(before));
      RoundShape(w, d, p, alternate);
      if e == Reschedule(d) {
        TurnKeeps(w, d, p, alternate);
        StepIsSchedule(w, d);
      } else {
        QuietKeeps(w, d, p, alternate, e);
        QuietIsNoTurn(w, e, p);
      }
    }
  }

  lemma NoEvents(s: Sched)
    ensures After(s, []) == Some(s) && Turns([]) == 0
  {
  }

  lemma RoundShape(s: Sched, c: nat, p: nat, alternate: bool)
    requires RoundStarts(s, c, p, alternate)
    ensures s.Shape() && c < 2 && p < PRIORITY_LVL_CNT && s.rings[p] != []
  {
  }

  lemma StepIsSchedule(s: Sched, c: nat)
    requires Enabled(s, Reschedule(c))
    ensures Step(s, Reschedule(c)) == Schedule(s, c)
  {
  }

  lemma QuietIsNoTurn(s: Sched, e: Event, p: nat)
    requires Quiet(s, e, p)
    ensures !e.Reschedule?
  {
  }

  /** In any such run, the k-th call of schedule, counting from 0, picks member k of the ring, modulo its
      length. */
  lemma RoundRobin(s: Sched, c: nat, p: nat, alternate: bool, before: seq<Event>)
    requires RoundStarts(s, c, p, alternate)
    requires RoundRun(s, c, p, alternate, before + [Reschedule(TurnOf(c, alternate, Turns(before)))])
    ensures s.Shape() && p < PRIORITY_LVL_CNT && s.rings[p] != []
    ensures var k, d := Turns(before), TurnOf(c, alternate, Turns(before));
            Picked(s, before, d) == Thread(s.rings[p][k % |s.rings[p]|])
  {
    hide RoundStarts, Quiet, Step, RoundRun, After, Turns, Rotate, Enabled;
    RoundShape(s, c, p, alternate);
    var k, d := Turns(before), TurnOf(c, alternate, Turns(before));
    var events := before + [Reschedule(d)];
    assert events[..|events| - 1] == before;
    LastOf(s, c, p, alternate, events);
    RoundGoesOn(s, c, p, alternate, before);
    var w := After(s, before).value;
    RoundShape(w, d, p, alternate);
    TurnKeeps(w, d, p, alternate);
    RotateByAt(s.rings[p], k, 0);
  }

  /** What schedule picks on core d after a run. */
  ghost function Picked(s: Sched, before: seq<Event>, d: nat): RunPtr
  {
    var r := After(s, before);
    if r.Some? && d < 2 && r.value.Shape() then Schedule(r.value, d).cores[d].nextRunPt else Unset
  }

  /** So every member is picked within as many turns as the ring has members. */
  lemma RoundCoversAll(s: Sched, c: nat, p: nat, alternate: bool, events: seq<Event>, t: Tid)
    requires RoundStarts(s, c, p, alternate) && RoundRun(s, c, p, alternate, events)
    requires s.Shape() && p < PRIORITY_LVL_CNT && Turns(events) >= |s.rings[p]| && t in s.rings[p]
    ensures exists n :: 0 <= n < |events| && events[n].Reschedule? && Turns(events[..n]) < |s.rings[p]| && Picked(s, events[..n], events[n].core) == Thread(t)
  {
    var k: nat :| k < |s.rings[p]| && s.rings[p][k] == t;
    var n := TurnAt(s, c, p, alternate, events, k);
    RoundRobin(s, c, p, alternate, events[..n]);
    ModSmall(k, |s.rings[p]|);
  }

  /** Where turn k is. */
  lemma {:induction false} TurnAt(s: Sched, c: nat, p: nat, alternate: bool, events: seq<Event>, k: nat) returns (n: nat)
    requires c < 2 && RoundRun(s, c, p, alternate, events) && k < Turns(events)
    ensures n < |events| && Turns(events[..n]) == k && events[n] == Reschedule(TurnOf(c, alternate, k))
    ensures events[..n + 1] == events[..n] + [events[n]] && RoundRun(s, c, p, alternate, events[..n + 1])
  {
    hide After, Quiet;
    var before, e := events[..|events| - 1], events[|events| - 1];
    if k < Turns(before) {
      n := TurnAt(s, c, p, alternate, before, k);
      assert before[..n] == events[..n] && before[..n + 1] == events[..n + 1];
    } else {
      n := |events| - 1;
      assert events[..n + 1] == events && events[..n] == before;
      LastOf(s, c, p, alternate, events);
      if Quiet(After(s, before).value, e, p) { QuietIsNoTurn(After(s, before).value, e, p); }
    }
  }
}
