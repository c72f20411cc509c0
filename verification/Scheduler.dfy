/** The task scheduler: ticks that claim and dispatch tasks, runs that settle at any time, and a stop
    whose drain completes when the last of them has. */
module Scheduler {
  import opened Publishing
  import opened Wrappers

  type Task = string

  /** How a call to the runner ends, at once or later. */
  datatype Ending = Succeeds | LockedOut | Breaks

  datatype Drain = NotAsked | Waiting | Complete

  /** The scheduler's own fields and the task table it shares with everybody else. `running` is what
      has been dispatched and has not settled. */
  datatype State = State(started: bool, stopping: bool, stopped: bool, armed: bool, inFlight: set<Task>, drain: Drain,
                         tasks: map<Task, Status>, running: set<Task>, dispatched: seq<Task>)

  function Initial(tasks: map<Task, Status>): State {
    State(false, false, false, false, {}, NotAsked, tasks, {}, [])
  }

  // ----- the steps -----

  /** One line of the listing a tick starts from; the status may be out of date when its turn comes. */
  datatype Candidate = Candidate(task: Task, listed: Status)

  /** A candidate listed as queued is claimed by a compare-and-swap on the table; one listed as waiting
      is taken as it is. */
  predicate Claimable(s: State, c: Candidate) {
    && c.task !in s.inFlight
    && (c.listed.WaitingRepoLock? || (c.listed.Queued? && c.task in s.tasks && s.tasks[c.task].Queued?))
  }

  /** A claimed task is in flight and handed to the runner. */
  function Claimed(s: State, c: Candidate): State {
    s.(tasks := if c.listed.Queued? then s.tasks[c.task := WaitingRepoLock] else s.tasks,
       inFlight := s.inFlight + {c.task}, running := s.running + {c.task}, dispatched := s.dispatched + [c.task])
  }

  /** A failed run moves the task to FAILED where the graph allows it; a lock conflict leaves it queued. */
  function Judged(s: State, t: Task, e: Ending): State {
    if e.Breaks? && t in s.tasks && Failed in Transitions(s.tasks[t]) then s.(tasks := s.tasks[t := Failed]) else s
  }

  function Finished(s: State, t: Task): State {
    var left := s.inFlight - {t};
    var done := s.stopping && left == {};
    s.(inFlight := left, running := s.running - {t}, stopped := s.stopped || done,
       drain := if done && s.drain.Waiting? then Complete else s.drain)
  }

  datatype Event =
    | Claim(candidate: Candidate, atOnce: Option<Ending>)
    | Settle(task: Task, ending: Ending)
    | Start
    | Arm
    | Stop
    | Others(changes: map<Task, Status>)

  predicate Enabled(s: State, e: Event) {
    match e
    case Settle(t, _) => t in s.running
    case _ => true
  }

  function Next(s: State, e: Event): State {
    match e
    case Claim(c, atOnce) =>
      if s.stopping || s.stopped || !Claimable(s, c) then s
      else if atOnce.None? then Claimed(s, c)
      else Finished(Judged(Claimed(s, c), c.task, atOnce.value), c.task)
    case Settle(t, ending) => Finished(Judged(s, t, ending), t)
    case Start => if s.started || s.stopping || s.stopped then s else s.(started := true)
    case Arm => if !s.started || s.stopping || s.stopped then s else s.(armed := true)
    case Stop =>
      var idle := s.inFlight == {} && s.drain.NotAsked?;
      s.(stopping := true, armed := false, stopped := s.stopped || idle,
         drain := if !s.drain.NotAsked? then s.drain else if idle then Complete else Waiting)
    case Others(changes) => s.(tasks := s.tasks + changes)
  }

  ghost predicate Possible(s: State, events: seq<Event>)
    decreases |events|
  {
    events == [] || (Enabled(s, events[0]) && Possible(Next(s, events[0]), events[1..]))
  }

  function Run(s: State, events: seq<Event>): State
    decreases |events|
  {
    if events == [] then s else Run(Next(s, events[0]), events[1..])
  }

  // ----- the invariant -----

  predicate Inv(s: State) {
    && s.running == s.inFlight
    && (s.armed ==> s.started && !s.stopping)
    && (s.stopped ==> s.stopping && s.inFlight == {})
    && (s.drain.NotAsked? <==> !s.stopping)
    && (s.drain.Complete? <==> s.stopping && s.inFlight == {})
    && (s.stopped <==> s.drain.Complete?)
  }

  lemma {:induction false} StepKeepsInv(s: State, e: Event)
    requires Inv(s) && Enabled(s, e)
    ensures Inv(Next(s, e))
  {
  }

  lemma {:induction false} RunsKeepInv(s: State, events: seq<Event>)
    requires Inv(s) && Possible(s, events)
    ensures Inv(Run(s, events))
    decreases |events|
  {
    if events != [] {
      StepKeepsInv(s, events[0]);
      RunsKeepInv(Next(s, events[0]), events[1..]);
    }
  }

  /** A task is dispatched only if no earlier run of it is unsettled, and only while not stopping. */
  lemma {:induction false} NeverTwiceAtOnce(tasks: map<Task, Status>, events: seq<Event>, e: Event)
    requires Possible(Initial(tasks), events)
    ensures var s := Run(Initial(tasks), events);
            Next(s, e).dispatched != s.dispatched ==>
              && e.Claim? && Next(s, e).dispatched == s.dispatched + [e.candidate.task]
              && e.candidate.task !in s.running && !s.stopping
  {
    RunsKeepInv(Initial(tasks), events);
  }

  /** Exactly when a dispatched task is waiting for its repository lock, as the runner expects: it was
      listed as queued, or is still what it was listed as. */
  lemma {:induction false} DispatchedWaitsIff(s: State, c: Candidate)
    requires Next(s, Claim(c, None)).dispatched != s.dispatched
    ensures var v := Next(s, Claim(c, None));
            (c.task in v.tasks && v.tasks[c.task].WaitingRepoLock?) <==>
            c.listed.Queued? || (c.task in s.tasks && s.tasks[c.task].WaitingRepoLock?)
  {
  }

  /** An out-of-date listing dispatches a task that is over. */
  lemma {:induction false} StaleListingDispatches(t: Task)
    ensures var c := Claim(Candidate(t, WaitingRepoLock), None);
            var s := Next(Next(Initial(map[t := WaitingRepoLock]), Others(map[t := Completed])), c);
            s.running == {t} && s.tasks == map[t := Completed]
  {
    assert map[t := WaitingRepoLock] + map[t := Completed] == map[t := Completed];
  }

  /** The drain is complete exactly when the scheduler is stopping and no run is unsettled. */
  lemma {:induction false} DrainedIff(tasks: map<Task, Status>, events: seq<Event>)
    requires Possible(Initial(tasks), events)
    ensures var s := Run(Initial(tasks), events); s.drain.Complete? <==> s.stopping && s.running == {}
  {
    RunsKeepInv(Initial(tasks), events);
  }

  /** Once complete it stays so: nothing is dispatched and nothing runs ever again. */
  lemma {:induction false} DrainedForGood(s: State, events: seq<Event>)
    requires Inv(s) && s.drain.Complete? && Possible(s, events)
    ensures var v := Run(s, events);
            v.drain.Complete? && v.running == {} && v.dispatched == s.dispatched
    decreases |events|
  {
    if events != [] {
      StepKeepsInv(s, events[0]);
      DrainedForGood(Next(s, events[0]), events[1..]);
    }
  }

  lemma {:induction false} FinalStatuses()
    ensures Transitions(Completed) == {} && Transitions(Cancelled) == {} && WaitingRepoLock in Transitions(Queued)
  {
  }

  /** The scheduler's own writes to the task table follow the task graph, and never leave a final status. */
  lemma {:induction false} WritesFollowGraph(s: State, e: Event, t: Task)
    requires !e.Others? && t in s.tasks
    ensures t in Next(s, e).tasks
    ensures Next(s, e).tasks[t] != s.tasks[t] ==>
              || Next(s, e).tasks[t] in Transitions(s.tasks[t])
              || (s.tasks[t].Queued? && Next(s, e).tasks[t].Failed? && Failed in Transitions(WaitingRepoLock))
    ensures s.tasks[t].Completed? || s.tasks[t].Cancelled? ==> Next(s, e).tasks[t] == s.tasks[t]
  {
    hide Transitions;
    FinalStatuses();
  }

  /** A run that has begun may end at any time, in any way, and is then no longer in flight. */
  lemma {:induction false} RunsMayEnd(s: State, t: Task, ending: Ending)
    ensures Enabled(s, Settle(t, ending)) <==> t in s.running
    ensures var v := Next(s, Settle(t, ending)); t !in v.running && t !in v.inFlight
  {
  }

  /** What one tick does. */
  function Pass(candidates: seq<Candidate>, others: nat -> map<Task, Status>, endings: Task -> Option<Ending>,
                from: nat): seq<Event>
    decreases |candidates| - from
  {
    if from >= |candidates| then []
    else
      [Others(others(from)), Claim(candidates[from], endings(candidates[from].task))] + Pass(candidates, others, endings, from + 1)
  }

  lemma {:induction false} PassTakes(candidates: seq<Candidate>, others: nat -> map<Task, Status>,
                                     endings: Task -> Option<Ending>, from: nat, k: nat)
    requires from + k < |candidates|
    ensures var pass := Pass(candidates, others, endings, from);
            && |pass| > 2 * k + 1 && pass[2 * k] == Others(others(from + k))
            && pass[2 * k + 1] == Claim(candidates[from + k], endings(candidates[from + k].task))
    decreases k
  {
    if k > 0 {
      var (pass, rest) := (Pass(candidates, others, endings, from), Pass(candidates, others, endings, from + 1));
      PassTakes(candidates, others, endings, from + 1, k - 1);
      assert pass[2 * k] == rest[2 * k - 2] && pass[2 * k + 1] == rest[2 * k - 1];
    }
  }

  lemma {:induction false} PassLength(candidates: seq<Candidate>, others: nat -> map<Task, Status>,
                                      endings: Task -> Option<Ending>, from: nat)
    requires from <= |candidates|
    ensures |Pass(candidates, others, endings, from)| == 2 * (|candidates| - from)
    decreases |candidates| - from
  {
    if from < |candidates| { PassLength(candidates, others, endings, from + 1); }
  }

  /** A tick looks at every candidate once, in the order listed, after whatever others wrote before it. */
  lemma {:induction false} PassTakesEach(candidates: seq<Candidate>, others: nat -> map<Task, Status>, endings: Task -> Option<Ending>)
    ensures var pass := Pass(candidates, others, endings, 0);
            && |pass| == 2 * |candidates|
            && forall k :: 0 <= k < |candidates| ==>
                 && pass[2 * k] == Others(others(k))
                 && pass[2 * k + 1] == Claim(candidates[k], endings(candidates[k].task))
  {
    hide Pass;
    PassLength(candidates, others, endings, 0);
    var pass := Pass(candidates, others, endings, 0);
    forall k | 0 <= k < |candidates|
      ensures pass[2 * k] == Others(others(k)) && pass[2 * k + 1] == Claim(candidates[k], endings(candidates[k].task))
    {
      PassTakes(candidates, others, endings, 0, k);
    }
  }

  lemma {:induction false} TwoEvents(s: State, a: Event, b: Event, rest: seq<Event>)
    ensures Run(s, [a, b] + rest) == Run(Next(Next(s, a), b), rest)
  {
    var all := [a, b] + rest;
    assert all[0] == a && all[1..][0] == b && all[1..][1..] == rest;
  }

  lemma {:induction false} StaysStarted(s: State, events: seq<Event>)
    requires s.started
    ensures Run(s, events).started
    decreases |events|
  {
    if events != [] { StaysStarted(Next(s, events[0]), events[1..]); }
  }

  // ----- the object -----

  class TaskScheduler {
    var started: bool
    var stopping: bool
    var stopped: bool
    var armed: bool
    var inFlight: set<Task>
    var drain: Drain
    var tasks: map<Task, Status>
    ghost var running: set<Task>
    ghost var dispatched: seq<Task>

    ghost function Now(): State
      reads this
    {
      State(started, stopping, stopped, armed, inFlight, drain, tasks, running, dispatched)
    }

    constructor (tasks: map<Task, Status>)
      ensures Now() == Initial(tasks)
    {
      started, stopping, stopped, armed := false, false, false, false;
      inFlight, drain, this.tasks, running, dispatched := {}, NotAsked, tasks, {}, [];
    }

    /** One pass over the candidates, in order; a run may end before its call returns, and others may
        write to the table before each of them. */
    method Tick(candidates: seq<Candidate>, others: nat -> map<Task, Status>, endings: Task -> Option<Ending>)
      modifies this
      ensures Now() == Run(old(Now()), Pass(candidates, others, endings, 0))
    {
      hide Next;
      ghost var whole := Run(Now(), Pass(candidates, others, endings, 0));
      var i := 0;
      while i < |candidates|
        invariant i <= |candidates|
        invariant whole == Run(Now(), Pass(candidates, others, endings, i))
      {
        TwoEvents(Now(), Others(others(i)), Claim(candidates[i], endings(candidates[i].task)),
                  Pass(candidates, others, endings, i + 1));
        Elsewhere(others(i));
        Take(candidates[i], endings(candidates[i].task));
        i := i + 1;
      }
    }

    /** Somebody else writes to the task table. */
    method Elsewhere(changes: map<Task, Status>)
      modifies this`tasks
      ensures Now() == Next(old(Now()), Others(changes))
    {
      tasks := tasks + changes;
    }

    method Take(c: Candidate, atOnce: Option<Ending>)
      modifies this
      ensures Now() == Next(old(Now()), Claim(c, atOnce))
    {
      if stopping || stopped || c.task in inFlight { return; }
      if c.listed.Queued? {
        if c.task !in tasks || !tasks[c.task].Queued? { return; }
        tasks := tasks[c.task := WaitingRepoLock];
      } else if !c.listed.WaitingRepoLock? {
        return;
      }
      inFlight, running, dispatched := inFlight + {c.task}, running + {c.task}, dispatched + [c.task];
      if atOnce.Some? {
        FailTask(c.task, atOnce.value);
        Finish(c.task);
      }
    }

    /** The first tick comes before the timer. */
    method StartUp(candidates: seq<Candidate>, others: nat -> map<Task, Status>, endings: Task -> Option<Ending>)
      modifies this
      ensures Now() == if old(started || stopping || stopped) then old(Now())
                       else Next(Run(Next(old(Now()), Start), Pass(candidates, others, endings, 0)), Arm)
    {
      if started || stopping || stopped { return; }
      started := true;
      assert Now() == Next(old(Now()), Start);
      Tick(candidates, others, endings);
      StaysStarted(Next(old(Now()), Start), Pass(candidates, others, endings, 0));
      if stopping || stopped { return; }
      armed := true;
    }

    method SettleRun(t: Task, ending: Ending)
      modifies this
      ensures Now() == Next(old(Now()), Event.Settle(t, ending))
    {
      FailTask(t, ending);
      Finish(t);
    }

    method FailTask(t: Task, ending: Ending)
      modifies this`tasks
      ensures Now() == Judged(old(Now()), t, ending)
    {
      if !ending.Breaks? || t !in tasks { return; }
      if Failed in Transitions(tasks[t]) { tasks := tasks[t := Failed]; }
    }

    method Finish(t: Task)
      modifies this
      ensures Now() == Finished(old(Now()), t)
    {
      inFlight, running := inFlight - {t}, running - {t};
      if stopping && inFlight == {} {
        stopped := true;
        if drain.Waiting? { drain := Complete; }
      }
    }

    /** The drain the caller waits for. */
    method StopAll() returns (d: Drain)
      modifies this
      ensures Now() == Next(old(Now()), Event.Stop)
      ensures d == drain && !d.NotAsked?
    {
      stopping, armed := true, false;
      if drain.NotAsked? {
        if inFlight == {} {
          stopped, drain := true, Complete;
        } else {
          drain := Waiting;
        }
      }
      d := drain;
    }
  }
}
