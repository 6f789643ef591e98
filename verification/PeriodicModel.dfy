/** The periodic tasks of os/periodic.c as values: the circular list from its root, its timer, and what
    every run keeps. */
module PeriodicModel {
  import opened Clock
  import opened Options

  /** A task, its period in milliseconds and the tick it is due at. */
  datatype Task = Task(id: nat, period: nat, time: nat)

  ghost predicate Sorted(q: seq<Task>)
  {
    forall i, j :: 0 <= i < j < |q| ==> q[i].time <= q[j].time
  }

  /** The first place from k on that does not come before time, or the end of the circle. */
  function PlaceFrom(q: seq<Task>, time: nat, k: nat): (p: nat)
    requires k <= |q|
    ensures k <= p <= |q| && (forall i :: k <= i < p ==> q[i].time < time) && (p < |q| ==> time <= q[p].time)
    decreases |q| - k
  {
    if k == |q| || time <= q[k].time then k else PlaceFrom(q, time, k + 1)
  }

  /** Insertion after the root. */
  function Insert(q: seq<Task>, t: Task): (r: seq<Task>)
    requires q != []
    ensures |r| == |q| + 1
  {
    var k := PlaceFrom(q, t.time, 1);
    q[..k] + [t] + q[k..]
  }

  function Again(t: Task): Task { t.(time := TickAfter(t.time, t.period)) }

  /** schedule_background: the root has run and is due again; it moves if the next task is due before it. */
  function RunRoot(q: seq<Task>): (r: seq<Task>)
    requires q != []
    ensures r != []
  {
    var t := Again(q[0]);
    if |q| > 1 && t.time > q[1].time then Insert(q[1..], t) else [t] + q[1..]
  }

  /** add_periodic_task: an earlier task than the root goes before it, which is the end of the circle. */
  function Add(q: seq<Task>, t: Task): (r: seq<Task>)
    ensures r != []
  {
    if q == [] then [t] else if t.time < q[0].time then q + [t] else Insert(q, t)
  }

  /** Whether add_periodic_task arms the timer, which it does with the new task's time. */
  predicate Arms(q: seq<Task>, t: Task) { q == [] || t.time < q[0].time }

  lemma InsertSorted(q: seq<Task>, t: Task)
    requires q != [] && Sorted(q) && q[0].time <= t.time
    ensures Sorted(Insert(q, t)) && Insert(q, t)[0] == q[0]
  {
    var k, r := PlaceFrom(q, t.time, 1), Insert(q, t);
    hide PlaceFrom, Insert;
    forall i, j | 0 <= i < j < |r| ensures r[i].time <= r[j].time {
      if i < k && j > k { assert r[i] == q[i] && r[j] == q[j - 1]; }
    }
  }

  lemma InsertTasks(q: seq<Task>, t: Task)
    requires q != []
    ensures multiset(Insert(q, t)) == multiset(q) + multiset{t}
  {
    var k := PlaceFrom(q, t.time, 1);
    assert q == q[..k] + q[k..];
  }

  /** Running the root changes nothing but its task's time. */
  lemma RunRootTasks(q: seq<Task>)
    requires q != []
    ensures multiset(RunRoot(q)) == multiset(q) - multiset{q[0]} + multiset{Again(q[0])}
  {
    hide Insert;
    assert q == [q[0]] + q[1..];
    if |q| > 1 { InsertTasks(q[1..], Again(q[0])); }
  }

  /** Running the root keeps the list sorted. */
  lemma RunRootSorted(q: seq<Task>)
    requires q != [] && Sorted(q) && q[0].time <= Again(q[0]).time
    ensures Sorted(RunRoot(q))
  {
    hide Insert;
    if |q| > 1 && Again(q[0]).time > q[1].time { InsertSorted(q[1..], Again(q[0])); }
  }

  lemma AddTasks(q: seq<Task>, t: Task)
    ensures multiset(Add(q, t)) == multiset(q) + multiset{t}
  {
    if q != [] && q[0].time <= t.time { InsertTasks(q, t); }
  }

  /** Adding keeps the list sorted, with the timer on its root, iff the new task is not due before the
      root: the code never makes an earlier task the root. */
  lemma AddKeepsIff(q: seq<Task>, t: Task)
    requires Sorted(q)
    ensures Sorted(Add(q, t)) && (Arms(q, t) ==> Add(q, t)[0].time == t.time) <==> q == [] || q[0].time <= t.time
  {
    if q != [] && q[0].time <= t.time {
      InsertSorted(q, t);
    }
  }

  // ---------------------------------------------------------------- runs

  /** The timer: off, armed, or fired with its interrupt not handled yet. */
  datatype Alarm = Off | Armed(at: nat) | Fired

  /** created: the tasks as they were added, task i at place i; runs: how often each has run. */
  datatype State = State(tasks: seq<Task>, alarm: Alarm, now: nat, created: seq<Task>, runs: seq<nat>)

  datatype Event = Create(period: nat) | Wait(time: nat) | AlarmFires | Background

  const INITIAL: State := State([], Off, 0, [], [])

  /** Time and due ticks stay below 2^32. */
  predicate Enabled(s: State, e: Event)
  {
    match e
    case Create(period) => s.now + period * 1000 < TICK_LIMIT
    case Wait(time) => true
    case AlarmFires => s.alarm.Armed? && s.alarm.at <= s.now
    case Background =>
      s.alarm == Fired && s.tasks != [] && s.tasks[0].id < |s.runs|
      && s.tasks[0].time + s.tasks[0].period * 1000 < TICK_LIMIT
  }

  function Step(s: State, e: Event): State
    requires Enabled(s, e)
  {
    match e
    case Create(period) =>
      var t := Task(|s.created|, period, TickAfter(s.now, period));
      s.(tasks := Add(s.tasks, t),
         alarm := if Arms(s.tasks, t) then Armed(t.time) else s.alarm,
         created := s.created + [t],
         runs := s.runs + [0])
    case Wait(time) => s.(now := s.now + time)
    case AlarmFires => s.(alarm := Fired)
    case Background =>
      var id := s.tasks[0].id;
      s.(tasks := RunRoot(s.tasks),
         alarm := Armed(RunRoot(s.tasks)[0].time),
         runs := s.runs[id := s.runs[id] + 1])
  }

  ghost function After(s: State, run: seq<Event>): Option<State>
  {
    if run == [] then Some(s)
    else
      var p := After(s, run[..|run| - 1]);
      if p.Some? && Enabled(p.value, run[|run| - 1]) then Some(Step(p.value, run[|run| - 1])) else None
  }

  /** A task as added, after a number of runs. */
  function Later(t: Task, runs: nat): Task { t.(time := t.time + runs * (t.period * 1000)) }

  /** Every task created, with the time its runs make it due at. */
  ghost function Due(created: seq<Task>, runs: seq<nat>): (d: seq<Task>)
    requires |created| == |runs|
    ensures |d| == |created| && forall i :: 0 <= i < |d| ==> d[i] == Later(created[i], runs[i])
  {
    seq(|created|, i requires 0 <= i < |created| => Later(created[i], runs[i]))
  }

  /** The list holds each task created once, due at its first time plus a period for each of its runs. */
  ghost predicate TasksOk(s: State)
  {
    && |s.runs| == |s.created| && (forall i :: 0 <= i < |s.created| ==> s.created[i].id == i)
    && multiset(s.tasks) == multiset(Due(s.created, s.runs))
  }

  lemma RootIsDue(s: State)
    requires TasksOk(s) && s.tasks != []
    ensures var id := s.tasks[0].id;
            && id < |s.created| && s.tasks[0] == Due(s.created, s.runs)[id] == Later(s.created[id], s.runs[id])
            && s.tasks[0].period == s.created[id].period
  {
    assert s.tasks[0] in multiset(Due(s.created, s.runs));
  }

  lemma LaterAgain(t: Task, runs: nat)
    requires Later(t, runs).time + t.period * 1000 < TICK_LIMIT
    ensures Again(Later(t, runs)) == Later(t, runs + 1)
  {
    TickAfterIff(Later(t, runs).time, t.period);
    assert (runs + 1) * (t.period * 1000) == runs * (t.period * 1000) + t.period * 1000;
  }

  lemma DueCreated(created: seq<Task>, runs: seq<nat>, t: Task)
    requires |created| == |runs|
    ensures Due(created + [t], runs + [0]) == Due(created, runs) + [t]
  {
  }

  lemma DueRun(created: seq<Task>, runs: seq<nat>, id: nat)
    requires |created| == |runs| && id < |runs|
    ensures Due(created, runs[id := runs[id] + 1]) == Due(created, runs)[id := Later(created[id], runs[id] + 1)]
  {
  }

  lemma CreateTasks(s: State, e: Event)
    requires TasksOk(s) && Enabled(s, e) && e.Create?
    ensures TasksOk(Step(s, e))
  {
    hide Add, Due;
    var t := Task(|s.created|, e.period, TickAfter(s.now, e.period));
    AddTasks(s.tasks, t);
    DueCreated(s.created, s.runs, t);
  }

  lemma BackgroundTasks(s: State)
    requires TasksOk(s) && Enabled(s, Background)
    ensures TasksOk(Step(s, Background))
  {
    hide RunRoot, Again, Due, Later;
    var id := s.tasks[0].id;
    RootIsDue(s);
    RunRootTasks(s.tasks);
    LaterAgain(s.created[id], s.runs[id]);
    DueRun(s.created, s.runs, id);
  }

  lemma TasksStep(s: State, e: Event)
    requires TasksOk(s) && Enabled(s, e)
    ensures TasksOk(Step(s, e))
  {
    if e.Create? {
      CreateTasks(s, e);
    } else if e.Background? {
      BackgroundTasks(s);
    }
  }

  /** The list is sorted and the timer stands for its root. */
  ghost predicate AlarmOk(s: State)
  {
    && Sorted(s.tasks)
    && match s.alarm
       case Off => s.tasks == []
       case Armed(at) => s.tasks != [] && at == s.tasks[0].time
       case Fired => s.tasks != [] && s.tasks[0].time <= s.now
  }

  /** The new task is not due before the root. */
  predicate AddsLater(s: State, e: Event)
  {
    e.Create? ==> !(s.tasks != [] && TickAfter(s.now, e.period) < s.tasks[0].time)
  }

  lemma AlarmStep(s: State, e: Event)
    requires AlarmOk(s) && Enabled(s, e) && AddsLater(s, e)
    ensures AlarmOk(Step(s, e))
  {
    hide Insert, Sorted;
    if e.Create? {
      var t := Task(|s.created|, e.period, TickAfter(s.now, e.period));
      AddKeepsIff(s.tasks, t);
      if s.tasks != [] { InsertSorted(s.tasks, t); }
    } else if e.Background? {
      TickAfterIff(s.tasks[0].time, s.tasks[0].period);
      RunRootSorted(s.tasks);
    }
  }

  ghost predicate RunAddsLater(s: State, run: seq<Event>)
  {
    run == [] ||
    (RunAddsLater(s, run[..|run| - 1]) &&
     var p := After(s, run[..|run| - 1]); p.Some? && AddsLater(p.value, run[|run| - 1]))
  }

  lemma {:induction false} RunTasks(run: seq<Event>, s: State)
    requires After(INITIAL, run) == Some(s)
    ensures TasksOk(s)
  {
    if run != [] {
      hide TasksOk, Step;
      var p := After(INITIAL, run[..|run| - 1]).value;
      RunTasks(run[..|run| - 1], p);
      TasksStep(p, run[|run| - 1]);
    }
  }

  lemma {:induction false} RunAlarm(s0: State, run: seq<Event>, s: State)
    requires AlarmOk(s0) && After(s0, run) == Some(s) && RunAddsLater(s0, run)
    ensures AlarmOk(s)
  {
    if run != [] {
      hide AlarmOk, Step;
      var p := After(s0, run[..|run| - 1]).value;
      RunAlarm(s0, run[..|run| - 1], p);
      AlarmStep(p, run[|run| - 1]);
    }
  }

  // ---------------------------------------------------------------- what every run keeps

  /** In every run, the list holds exactly the tasks created, and a task that has run k times is due at its
      first time plus k periods: its times never drift. */
  lemma DueTimesExact(run: seq<Event>, s: State)
    requires After(INITIAL, run) == Some(s)
    ensures |s.tasks| == |s.created| == |s.runs|
    ensures forall id :: 0 <= id < |s.created| ==> Later(s.created[id], s.runs[id]) in s.tasks
    ensures forall t :: t in s.tasks ==> t.id < |s.created| && t == Later(s.created[t.id], s.runs[t.id])
  {
    RunTasks(run, s);
    var d := Due(s.created, s.runs);
    assert |multiset(s.tasks)| == |multiset(d)|;
    forall id | 0 <= id < |s.created| ensures d[id] in s.tasks { assert d[id] in multiset(d); }
    forall t | t in s.tasks ensures t.id < |s.created| && t == d[t.id] { assert t in multiset(s.tasks) && t in multiset(d); }
  }

  /** If no task was added that was due before the root, the timer runs the task that is due first, and
      never before it is due. */
  lemma NeverEarly(run: seq<Event>, s: State)
    requires After(INITIAL, run) == Some(s) && RunAddsLater(INITIAL, run) && s.alarm == Fired
    ensures s.tasks != [] && s.tasks[0].time <= s.now
    ensures forall t :: t in s.tasks ==> s.tasks[0].time <= t.time
  {
    RunAlarm(INITIAL, run, s);
  }

  /** The timer has gone off, and the task at the root, which runs now, is not due. */
  ghost predicate Early(s: State)
  {
    s.alarm == Fired && s.tasks != [] && s.now < s.tasks[0].time
  }

  /** Additions that are not due before the root, and everything else, can lead from s to an early run. */
  ghost predicate CanGoEarly(s: State)
  {
    exists run :: RunAddsLater(s, run) && After(s, run).Some? && Early(After(s, run).value)
  }

  /** An addition lets a task run early iff it is due before the root: then the timer goes off for the new
      task, and the root runs. */
  lemma EarlyIff(s: State, e: Event)
    requires AlarmOk(s) && Enabled(s, e)
    ensures CanGoEarly(Step(s, e)) <==> !AddsLater(s, e)
  {
    hide AlarmOk, Step, Enabled, After, RunAddsLater, Early, AddsLater;
    var s1 := Step(s, e);
    if AddsLater(s, e) {
      AlarmStep(s, e);
      NotEarly(s1);
    } else {
      GoesEarly(s, e);
    }
  }

  /** A sorted list with the timer on its root runs nothing early. */
  lemma NotEarly(s: State)
    requires AlarmOk(s)
    ensures !CanGoEarly(s)
  {
    hide After, RunAddsLater;
    forall run | RunAddsLater(s, run) && After(s, run).Some? ensures !Early(After(s, run).value) {
      RunAlarm(s, run, After(s, run).value);
    }
  }

  /** Wait for the new task's time, and let the timer go off. */
  lemma GoesEarly(s: State, e: Event)
    requires AlarmOk(s) && Enabled(s, e) && !AddsLater(s, e)
    ensures CanGoEarly(Step(s, e))
  {
    var s1, wait := Step(s, e), Wait(e.period * 1000);
    TickAfterIff(s.now, e.period);
    assert s1.tasks[0] == s.tasks[0];
    var s2 := Step(s1, wait);
    assert After(s1, []) == Some(s1) && RunAddsLater(s1, []);
    Then(s1, [], s1, wait, s2);
    assert Enabled(s2, AlarmFires) && Early(Step(s2, AlarmFires));
    Then(s1, [] + [wait], s2, AlarmFires, Step(s2, AlarmFires));
  }

  /** If nothing else happens, the task at the root runs as soon as it is due, or now if it is due already. */
  lemma RunsInTime(s: State) returns (run: seq<Event>, w: State)
    requires AlarmOk(s) && TasksOk(s) && s.tasks != [] && s.tasks[0].time + s.tasks[0].period * 1000 < TICK_LIMIT
    ensures After(s, run) == Some(w) && w.now == (if s.now < s.tasks[0].time then s.tasks[0].time else s.now)
    ensures var id := s.tasks[0].id; id < |s.runs| && w.runs == s.runs[id := s.runs[id] + 1] && w.tasks == RunRoot(s.tasks)
  {
    RootHasRuns(s);
    hide AlarmOk, TasksOk, RunRoot, After;
    run, w := FiresInTime(s);
    Then(s, run, w, Background, Step(w, Background));
    run, w := run + [Background], Step(w, Background);
  }

  lemma RootHasRuns(s: State)
    requires TasksOk(s) && s.tasks != []
    ensures s.tasks[0].id < |s.runs|
  {
    RootIsDue(s);
  }

  /** The timer goes off. */
  lemma FiresInTime(s: State) returns (run: seq<Event>, w: State)
    requires AlarmOk(s) && s.tasks != []
    ensures After(s, run) == Some(w) && w == s.(alarm := Fired, now := w.now)
    ensures w.now == if s.now < s.tasks[0].time then s.tasks[0].time else s.now
  {
    run, w := [], s;
    assert After(s, []) == Some(s);
    if s.alarm.Armed? {
      var wait := Wait(if s.now < s.tasks[0].time then s.tasks[0].time - s.now else 0);
      Then(s, [], s, wait, Step(s, wait));
      Then(s, [] + [wait], Step(s, wait), AlarmFires, Step(Step(s, wait), AlarmFires));
      run, w := [] + [wait] + [AlarmFires], Step(Step(s, wait), AlarmFires);
    }
  }

  /** At no point of a run can a task go early iff every task of the run was added no earlier than the root. */
  lemma {:induction false} NeverEarlyIff(run: seq<Event>)
    requires After(INITIAL, run).Some?
    ensures (forall n :: 0 <= n <= |run| ==> SafeAt(run, n)) <==> RunAddsLater(INITIAL, run)
  {
    hide AlarmOk, Step, Enabled, CanGoEarly, AddsLater;
    if run == [] {
      assert AlarmOk(INITIAL) by { InitialAlarm(); }
      NotEarly(INITIAL);
    } else {
      var last := |run| - 1;
      var before, p := run[..last], After(INITIAL, run[..last]).value;
      NeverEarlyIff(before);
      assert run[..|run|] == run;
      forall n | 0 <= n <= last ensures SafeAt(run, n) == SafeAt(before, n) { assert run[..n] == before[..n]; }
      if RunAddsLater(INITIAL, before) {
        InitialAlarm();
        RunAlarm(INITIAL, before, p);
        EarlyIff(p, run[last]);
        assert SafeAt(run, |run|) <==> AddsLater(p, run[last]);
      }
    }
  }

  lemma InitialAlarm()
    ensures AlarmOk(INITIAL)
  {
  }

  /** After n events of the run nothing can go early. */
  ghost predicate SafeAt(run: seq<Event>, n: int)
  {
    0 <= n <= |run| && var s := After(INITIAL, run[..n]); s.Some? ==> !CanGoEarly(s.value)
  }

  /** From power-up it can: the timer goes off for the new task, and another one runs. */
  lemma EarlyRun()
    ensures exists run, s :: After(INITIAL, run) == Some(s) && Early(s)
  {
    var a, b := Task(0, 10, 10000), Task(1, 2, 2000);
    assert TickAfter(0, 10) == 10000 && TickAfter(0, 2) == 2000;
    var s1 := State([a], Armed(10000), 0, [a], [0]);
    var s2 := State([a, b], Armed(2000), 0, [a, b], [0, 0]);
    assert After(INITIAL, []) == Some(INITIAL);
    assert s1.runs + [0] == s2.runs && s1.created + [b] == s2.created && Add([a], b) == [a, b];
    Then(INITIAL, [], INITIAL, Create(10), s1);
    Then(INITIAL, [] + [Create(10)], s1, Create(2), s2);
    Then(INITIAL, [] + [Create(10)] + [Create(2)], s2, Wait(2000), s2.(now := 2000));
    Then(INITIAL, [] + [Create(10)] + [Create(2)] + [Wait(2000)], s2.(now := 2000), AlarmFires, s2.(now := 2000, alarm := Fired));
  }

  lemma Then(s0: State, run: seq<Event>, p: State, e: Event, s: State)
    requires After(s0, run) == Some(p) && Enabled(p, e) && Step(p, e) == s
    ensures After(s0, run + [e]) == Some(s) && (RunAddsLater(s0, run) && AddsLater(p, e) ==> RunAddsLater(s0, run + [e]))
  {
    assert (run + [e])[..|run|] == run;
  }
}
