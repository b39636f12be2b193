/** The bookkeeping of release-after-workflow tasks: `_release_tasks` and its done callbacks.

    A task finishing and the delivery of its callback are separate steps, as the event loop makes
    them; shutdown is not part of this model. */
module ReleaseTasks {
  import opened Wrappers

  type RunId = nat
  type TaskId = nat

  datatype Stage = Running | Finished | Delivered

  datatype Task = Task(run: RunId, stage: Stage)

  /** Tasks are numbered in order of creation; `current` is the map the agent keeps. */
  datatype State = State(tasks: seq<Task>, current: map<RunId, TaskId>)

  datatype Label =
    | Schedule(run: RunId)      // release_reservation_after_workflow
    | Finish(task: TaskId)      // the task's coroutine ends, in any way
    | Deliver(task: TaskId)     // its done callback runs

  predicate Unfinished(s: State, t: TaskId) {
    t < |s.tasks| && s.tasks[t].stage == Running
  }

  /** A call while the mapped task still runs does nothing; otherwise a new task takes the entry. */
  function ScheduleStep(s: State, run: RunId): State {
    if run in s.current && Unfinished(s, s.current[run]) then s
    else State(s.tasks + [Task(run, Running)], s.current[run := |s.tasks|])
  }

  /** `_discard_release_task`: the entry goes only if it still names the completed task. */
  function Discard(current: map<RunId, TaskId>, run: RunId, t: TaskId): map<RunId, TaskId> {
    if run in current && current[run] == t then current - {run} else current
  }

  function FinishStep(s: State, t: TaskId): State
    requires t < |s.tasks|
  {
    s.(tasks := s.tasks[t := s.tasks[t].(stage := Finished)])
  }

  function DeliverStep(s: State, t: TaskId): State
    requires t < |s.tasks|
  {
    State(s.tasks[t := s.tasks[t].(stage := Delivered)], Discard(s.current, s.tasks[t].run, t))
  }

  function Step(s: State, l: Label): Outcome<State> {
    match l
    case Schedule(run) => Ok(ScheduleStep(s, run))
    case Finish(t) => if Unfinished(s, t) then Ok(FinishStep(s, t)) else Failed
    case Deliver(t) => if t < |s.tasks| && s.tasks[t].stage == Finished then Ok(DeliverStep(s, t)) else Failed
  }

  function Run(ls: seq<Label>): Outcome<State> {
    if ls == [] then Ok(State([], map[]))
    else
      match Run(ls[..|ls| - 1])
      case Failed => Failed
      case Ok(m) => Step(m, ls[|ls| - 1])
  }

  /** A run goes on with any step that is possible where it stands. */
  lemma {:induction false} RunGrows(ls: seq<Label>, m: State, l: Label)
    requires Run(ls) == Ok(m)
    ensures Run(ls + [l]) == Step(m, l) && Run([]) == Ok(State([], map[]))
  {
    assert (ls + [l])[..|ls|] == ls;
  }

  /** An entry names an existing task of its run whose callback is still to come. */
  predicate EntryOk(s: State, run: RunId)
    requires run in s.current
  {
    var t := s.current[run];
    t < |s.tasks| && s.tasks[t].run == run && s.tasks[t].stage != Delivered
  }

  /** The map names t for t's run. */
  predicate Mapped(s: State, t: TaskId)
    requires t < |s.tasks|
  {
    s.tasks[t].run in s.current && s.current[s.tasks[t].run] == t
  }

  ghost predicate Tidy(s: State) {
    && (forall run :: run in s.current ==> EntryOk(s, run))
    && (forall t: TaskId :: Unfinished(s, t) ==> Mapped(s, t))
  }

  lemma {:induction false} ScheduleTidy(s: State, run: RunId)
    requires Tidy(s)
    ensures Tidy(ScheduleStep(s, run))
  {
    var n := ScheduleStep(s, run);
    forall t: TaskId | Unfinished(n, t) ensures Mapped(n, t) {
      if t < |s.tasks| {
        assert Unfinished(s, t) && Mapped(s, t);
      }
    }
  }

  lemma {:induction false} FinishTidy(s: State, t: TaskId)
    requires Tidy(s) && Unfinished(s, t)
    ensures Tidy(FinishStep(s, t))
  {
    var n := FinishStep(s, t);
    forall run | run in n.current ensures EntryOk(n, run) {
      assert EntryOk(s, run);
    }
    forall u: TaskId | Unfinished(n, u) ensures Mapped(n, u) {
      assert Unfinished(s, u) && Mapped(s, u);
    }
  }

  lemma {:induction false} DeliverTidy(s: State, t: TaskId)
    requires Tidy(s) && t < |s.tasks| && s.tasks[t].stage == Finished
    ensures Tidy(DeliverStep(s, t))
  {
    var n := DeliverStep(s, t);
    forall run | run in n.current ensures EntryOk(n, run) {
      assert EntryOk(s, run);
    }
    forall u: TaskId | Unfinished(n, u) ensures Mapped(n, u) {
      assert Unfinished(s, u) && Mapped(s, u);
    }
  }

  lemma {:induction false} StepTidy(s: State, l: Label, t: State)
    requires Tidy(s) && Step(s, l) == Ok(t)
    ensures Tidy(t)
  {
    match l
    case Schedule(run) => ScheduleTidy(s, run);
    case Finish(u) => FinishTidy(s, u);
    case Deliver(u) => DeliverTidy(s, u);
  }

  lemma {:induction false} RunTidy(ls: seq<Label>, t: State)
    requires Run(ls) == Ok(t)
    ensures Tidy(t)
  {
    if ls != [] {
      RunTidy(ls[..|ls| - 1], Run(ls[..|ls| - 1]).value);
      StepTidy(Run(ls[..|ls| - 1]).value, ls[|ls| - 1], t);
    }
  }

  /** At every point of every run a workflow run has at most one unfinished task, and it is the task
      the map holds. */
  lemma {:induction false} OneUnfinishedTask(ls: seq<Label>, s: State, t: TaskId, u: TaskId)
    requires Run(ls) == Ok(s) && Unfinished(s, t) && Unfinished(s, u) && s.tasks[t].run == s.tasks[u].run
    ensures t == u && Mapped(s, t)
  {
    RunTidy(ls, s);
    assert Mapped(s, t) && Mapped(s, u);
  }

  /** A callback removes its own task's entry and nothing else; in particular one that comes late never
      removes a newer task, and no unfinished task is ever removed. */
  lemma {:induction false} LateCallbackIsHarmless(ls: seq<Label>, s: State, t: TaskId, after: State)
    requires Run(ls) == Ok(s) && Step(s, Deliver(t)) == Ok(after)
    ensures forall run :: run in s.current && s.current[run] != t ==>
      run in after.current && after.current[run] == s.current[run]
    ensures forall run :: run in after.current ==> run in s.current && after.current[run] == s.current[run]
    ensures forall run :: run in after.current ==> after.current[run] != t
    ensures forall u: TaskId :: Unfinished(s, u) ==> Unfinished(after, u) && Mapped(after, u)
  {
    RunTidy(ls, s);
    DeliverTidy(s, t);
    forall u: TaskId | Unfinished(s, u) ensures Unfinished(after, u) && Mapped(after, u) {
      assert u != t;
    }
  }

  /** Scheduling leaves the run with an unfinished task, and makes a new one exactly if it had none. */
  lemma {:induction false} ScheduleExact(ls: seq<Label>, s: State, run: RunId, after: State)
    requires Run(ls) == Ok(s) && Step(s, Schedule(run)) == Ok(after)
    ensures run in after.current && Unfinished(after, after.current[run]) && after.tasks[after.current[run]].run == run
    ensures |after.tasks| ==
            |s.tasks| + if exists t: TaskId :: Unfinished(s, t) && s.tasks[t].run == run then 0 else 1
    ensures forall t: TaskId :: Unfinished(s, t) ==> Unfinished(after, t)
    ensures forall r :: r != run && r in s.current ==> r in after.current && after.current[r] == s.current[r]
  {
    RunTidy(ls, s);
    if t: TaskId :| Unfinished(s, t) && s.tasks[t].run == run {
      OneUnfinishedTask(ls, s, t, t);
    }
    if run in s.current && Unfinished(s, s.current[run]) {
      assert EntryOk(s, run);
    }
  }

  /** Once every callback has been delivered the map is empty. */
  lemma {:induction false} MapDrains(ls: seq<Label>, s: State)
    requires Run(ls) == Ok(s) && forall t :: 0 <= t < |s.tasks| ==> s.tasks[t].stage == Delivered
    ensures s.current == map[]
  {
    RunTidy(ls, s);
    assert s.current.Keys == {};
  }

  class LabAgent {
    var tasks: seq<Task>
    var releaseTasks: map<RunId, TaskId>

    function View(): State
      reads this
    {
      State(tasks, releaseTasks)
    }

    constructor ()
      ensures Run([]) == Ok(View())
    {
      tasks, releaseTasks := [], map[];
    }

    method ReleaseReservationAfterWorkflow(run: RunId)
      requires Tidy(View())
      modifies this
      ensures View() == ScheduleStep(old(View()), run) && Tidy(View())
      ensures run in releaseTasks && Unfinished(View(), releaseTasks[run]) && tasks[releaseTasks[run]].run == run
      ensures if run in old(releaseTasks) && old(tasks[releaseTasks[run]].stage) == Running
              then tasks == old(tasks) && releaseTasks == old(releaseTasks)
              else |tasks| == |old(tasks)| + 1 && tasks[..|old(tasks)|] == old(tasks)
                   && releaseTasks == old(releaseTasks)[run := |old(tasks)|]
    {
      ghost var before := View();
      if run in releaseTasks && tasks[releaseTasks[run]].stage == Running {
        return;
      }
      releaseTasks := releaseTasks[run := |tasks|];
      tasks := tasks + [Task(run, Running)];
      StepTidy(before, Schedule(run), View());
    }

    method TaskFinishes(t: TaskId)
      requires Tidy(View()) && Unfinished(View(), t)
      modifies this`tasks
      ensures View() == FinishStep(old(View()), t) && Tidy(View())
      ensures tasks == old(tasks)[t := Task(old(tasks[t].run), Finished)] && releaseTasks == old(releaseTasks)
    {
      ghost var before := View();
      tasks := tasks[t := tasks[t].(stage := Finished)];
      StepTidy(before, Finish(t), View());
    }

    method DiscardReleaseTask(t: TaskId)
      requires Tidy(View()) && t < |tasks| && tasks[t].stage == Finished
      modifies this
      ensures View() == DeliverStep(old(View()), t) && Tidy(View())
      ensures tasks == old(tasks)[t := Task(old(tasks[t].run), Delivered)]
      ensures forall r :: r in releaseTasks <==> r in old(releaseTasks) && old(releaseTasks)[r] != t
      ensures forall r :: r in releaseTasks ==> releaseTasks[r] == old(releaseTasks)[r]
    {
      ghost var before := View();
      var run := tasks[t].run;
      if run in releaseTasks && releaseTasks[run] == t {
        releaseTasks := releaseTasks - {run};
      }
      tasks := tasks[t := tasks[t].(stage := Delivered)];
      StepTidy(before, Deliver(t), View());
    }
  }
}
