/** What each event does to the periodic tasks, told by the list and the times: the step function is the one that
    does it. */
module PeriodicEffects {
  import opened Clock
  import opened PeriodicModel

  /** t goes behind the root and every task due before it, and before the first one that is not. */
  ghost predicate GoesIn(q: seq<Task>, r: seq<Task>, t: Task)
  {
    exists k :: 1 <= k <= |q| && r == q[..k] + [t] + q[k..]
      && (forall i :: 1 <= i < k ==> q[i].time < t.time) && (k < |q| ==> t.time <= q[k].time)
  }

  /** The new task: alone, at the end of the circle if it is due before the root, or in its place. */
  ghost predicate Added(s: State, s': State, period: nat)
  {
    var t := Task(|s.created|, period, (s.now + period * 1000) % TICK_LIMIT);
    && s' == s.(tasks := s'.tasks, alarm := s'.alarm, created := s.created + [t], runs := s.runs + [0])
    && (s.tasks == [] ==> s'.tasks == [t] && s'.alarm == Armed(t.time))
    && (s.tasks != [] && t.time < s.tasks[0].time ==> s'.tasks == s.tasks + [t] && s'.alarm == Armed(t.time))
    && (s.tasks != [] && t.time >= s.tasks[0].time ==> GoesIn(s.tasks, s'.tasks, t) && s'.alarm == s.alarm)
  }

  /** The root has run: it is due a period later, stays the root unless the next task is due before it, and the
      timer stands for the root. */
  ghost predicate Ran(s: State, s': State)
    requires s.tasks != [] && s.tasks[0].id < |s.runs|
  {
    var t, rest, id := s.tasks[0], s.tasks[1..], s.tasks[0].id;
    var again := Task(id, t.period, (t.time + t.period * 1000) % TICK_LIMIT);
    && s' == s.(tasks := s'.tasks, alarm := s'.alarm, runs := s.runs[id := s.runs[id] + 1])
    && (rest == [] || again.time <= rest[0].time ==> s'.tasks == [again] + rest)
    && (rest != [] && again.time > rest[0].time ==> GoesIn(rest, s'.tasks, again))
    && s'.tasks != [] && s'.alarm == Armed(s'.tasks[0].time)
  }

  ghost predicate Effect(s: State, e: Event, s': State)
    requires Enabled(s, e)
  {
    match e
    case Create(period) => Added(s, s', period)
    case Wait(time) => s' == s.(now := s.now + time)
    case AlarmFires => s' == s.(alarm := Fired)
    case Background => Ran(s, s')
  }

  lemma InsertIff(q: seq<Task>, r: seq<Task>, t: Task)
    requires q != []
    ensures r == Insert(q, t) <==> GoesIn(q, r, t)
  {
    var p := PlaceFrom(q, t.time, 1);
    if GoesIn(q, r, t) {
      var k :| 1 <= k <= |q| && r == q[..k] + [t] + q[k..]
        && (forall i :: 1 <= i < k ==> q[i].time < t.time) && (k < |q| ==> t.time <= q[k].time);
      assert k == p;
    }
  }

  /** The effect of an event is the step, and nothing else has it. */
  lemma StepIff(s: State, e: Event, s': State)
    requires Enabled(s, e)
    ensures s' == Step(s, e) <==> Effect(s, e, s')
  {
    hide Insert, GoesIn, TickAfter, PlaceFrom;
    match e
    case Create(period) =>
      TickIs(s.now, period);
      var t := Task(|s.created|, period, TickAfter(s.now, period));
      if s.tasks != [] { InsertIff(s.tasks, s'.tasks, t); }
    case Background =>
      TickIs(s.tasks[0].time, s.tasks[0].period);
      if |s.tasks| > 1 { InsertIff(s.tasks[1..], s'.tasks, Again(s.tasks[0])); }
    case _ =>
  }
}
