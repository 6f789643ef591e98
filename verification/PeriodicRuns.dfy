/** The runs of PeriodicModel in memory: calls of schedule_background and add_periodic_task, one after another, on
    one linked circle. */
module PeriodicRuns {
  import opened Options
  import opened PeriodicModel
  import opened PeriodicEffects
  import opened PeriodicQueueClass

  /** The circle holds the tasks, and an armed timer stands for the time last written to it. */
  ghost predicate Matches(q: PeriodicQueue, s: State)
    reads q, q.Contents
  {
    q.Linked() && q.Tasks() == s.tasks && (s.alarm.Armed? ==> s.alarm.at == q.armed)
  }

  /** One event; time and the timer itself change nothing in memory. */
  method Perform(q: PeriodicQueue, s: State, e: Event) returns (s': State)
    requires Matches(q, s) && Enabled(s, e)
    modifies q, q.Contents
    ensures s' == Step(s, e) && Effect(s, e, s') && Matches(q, s') && old(q.Nodes()) <= q.Nodes() && fresh(q.Nodes() - old(q.Nodes()))
  {
    hide RunRoot, Add, Values, Effect;
    StepIff(s, e, Step(s, e));
    s' := Step(s, e);
    match e
    case Create(period) => var held := q.AddPeriodicTask(|s.created|, period, s.now, true);
    case Background => q.ScheduleBackground();
    case _ =>
  }

  /** A whole run. */
  method Run(q: PeriodicQueue, s: State, run: seq<Event>) returns (s': State)
    requires Matches(q, s) && After(s, run).Some?
    modifies q, q.Contents
    ensures After(s, run) == Some(s') && Matches(q, s') && old(q.Nodes()) <= q.Nodes() && fresh(q.Nodes() - old(q.Nodes()))
  {
    hide Step, Enabled, PeriodicQueue.Linked, PeriodicQueue.Tasks;
    s' := s;
    if run != [] {
      s' := Run(q, s, run[..|run| - 1]);
      s' := Perform(q, s', run[|run| - 1]);
    }
  }

  /** Every run from power-up is one of a circle in memory. */
  method RunFromPowerUp(run: seq<Event>) returns (q: PeriodicQueue, s: State)
    requires After(INITIAL, run).Some?
    ensures fresh(q) && fresh(q.Nodes()) && After(INITIAL, run) == Some(s) && Matches(q, s)
  {
    q := new PeriodicQueue();
    s := Run(q, INITIAL, run);
  }
}
