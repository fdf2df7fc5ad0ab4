/** The "Running tasks" step of lib/runner.js: one renderer task per group,
    run side by side, and inside each a `task.group` of its commands run one
    after another. The callbacks are written as `Tasks.Body` values and run
    through the task lifecycle of lib/task.js, so the states shown are the
    ones `update` and the `loading` to `success` promotion produce. Command
    outcomes are the same oracle the command-line runner uses. */
module GroupRunner {
  import opened Results
  import opened Executor
  import opened TaskGeneration
  import opened Tasks
  import opened Messages
  import CmdRunner

  /** What the callbacks of a `task.group` have built after the first `i`
      commands: the callback each one ran, the indices whose
      `sub_task.run()` was awaited, in call order, the messages pushed, and
      the `skipped` flag they share. */
  datatype SubTaskProgress = SubTaskProgress(bodies: seq<Body>, calls: seq<nat>, errors: seq<string>, skipped: bool)

  /** The callback of command `i`, run after the earlier ones (the group
      awaits them in order), whose `run()` would settle as `s`: with
      `skipped` set it only shows a warning and `run()` is not called;
      otherwise `run()` is awaited, and a rejection sets `skipped`, turns the
      title red (colours are identity here), shows an error and pushes the
      message. */
  function SubTaskStep(p: SubTaskProgress, t: SubTask, i: nat, s: Settled): SubTaskProgress
  {
    if p.skipped then p.(bodies := p.bodies + [Body([Update(None, Some(Warning))], false)])
    else if s.Resolved? then p.(bodies := p.bodies + [Body([], false)], calls := p.calls + [i])
    else SubTaskProgress(p.bodies + [Body([Update(Some(t.title), Some(Error))], false)], p.calls + [i],
                         p.errors + [CmdRunner.TaskFailure(t, s.output)], true)
  }

  /** The callbacks of the first `i` commands of `g`, from a clear flag. */
  function SubTaskRuns(g: Group, outcome: nat -> Settled, i: nat): (p: SubTaskProgress)
    requires i <= |g.tasks|
    ensures |p.bodies| == i
  {
    if i == 0 then SubTaskProgress([], [], [], false)
    else SubTaskStep(SubTaskRuns(g, outcome, i - 1), g.tasks[i - 1], i - 1, outcome(i - 1))
  }

  /** The callback of command `j` of the group. */
  function SubTaskBody(g: Group, outcome: nat -> Settled, j: nat): Body
    requires j < |g.tasks|
  {
    SubTaskRuns(g, outcome, |g.tasks|).bodies[j]
  }

  /** The callback the renderer runs for a command that `lib/cmd-runner.js`
      leaves in state `s`. */
  function ShownBody(t: SubTask, s: CmdRunner.CmdState): Body
  {
    match s
    case Warn => Body([Update(None, Some(Warning))], false)
    case Fail => Body([Update(Some(t.title), Some(Error))], false)
    case _ => Body([], false)
  }

  /** The renderer's loop and `run_task` have built the same thing after the
      first `i` commands: the same calls, messages and flag, and each
      callback is the one shown for the command's report. */
  predicate Mirrors(g: Group, i: nat, p: SubTaskProgress, q: CmdRunner.Progress)
    requires i <= |g.tasks|
  {
    && |p.bodies| == i && |q.reports| == i
    && (forall j :: 0 <= j < i ==> p.bodies[j] == ShownBody(g.tasks[j], q.reports[j].state))
    && p.calls == q.calls && p.errors == q.errors && p.skipped == q.skipped
  }

  /** The two loops over a group's commands, written independently in
      lib/runner.js and lib/cmd-runner.js, agree step by step. */
  lemma {:induction false} SubTaskRunsMirrorSteps(g: Group, outcome: nat -> Settled, i: nat)
    requires i <= |g.tasks|
    ensures Mirrors(g, i, SubTaskRuns(g, outcome, i), CmdRunner.Steps(g, outcome, i))
  {
    if i > 0 {
      SubTaskRunsMirrorSteps(g, outcome, i - 1);
      MirrorsStep(g, i - 1, SubTaskRuns(g, outcome, i - 1), CmdRunner.Steps(g, outcome, i - 1), outcome(i - 1));
    }
  }

  /** One more command, settling as `s`, keeps the two loops in step. */
  lemma {:induction false} MirrorsStep(g: Group, m: nat, p: SubTaskProgress, q: CmdRunner.Progress, s: Settled)
    requires m < |g.tasks| && Mirrors(g, m, p, q)
    ensures Mirrors(g, m + 1, SubTaskStep(p, g.tasks[m], m, s), CmdRunner.Step(q, g.tasks[m], m, s))
  {
    var p1 := SubTaskStep(p, g.tasks[m], m, s);
    var q1 := CmdRunner.Step(q, g.tasks[m], m, s);
    forall j | 0 <= j < m + 1 ensures p1.bodies[j] == ShownBody(g.tasks[j], q1.reports[j].state) {
      if j < m {
        assert p1.bodies[j] == p.bodies[j];
        assert q1.reports[j] == q.reports[j];
      }
    }
  }

  /** The renderer's loop over a group: command `j` runs the callback of its
      position relative to the first rejection `k`; `run()` is awaited for
      the commands up to and including `k` and never for a later one; the
      only message is `k`'s. */
  lemma {:induction false} SubTaskRunsMeaning(g: Group, outcome: nat -> Settled)
    ensures var n := |g.tasks|;
      var k := CmdRunner.FirstRejected(outcome, n);
      var p := SubTaskRuns(g, outcome, n);
      && (forall j :: 0 <= j < n ==> p.bodies[j] == ShownBody(g.tasks[j], CmdRunner.StateAt(j, k)))
      && p.calls == CmdRunner.Range(if k < n then k + 1 else n)
      && p.errors == (if k < n then [CmdRunner.TaskFailure(g.tasks[k], outcome(k).output)] else [])
  {
    SubTaskRunsMirrorSteps(g, outcome, |g.tasks|);
    CmdRunner.StepsMeaning(g, outcome, |g.tasks|);
  }

  /** The commands push a message exactly when one of them rejects, and at most one. */
  lemma {:induction false} SubTaskErrorsIffRejected(g: Group, outcome: nat -> Settled)
    ensures var errors := SubTaskRuns(g, outcome, |g.tasks|).errors;
      && (errors != [] <==> CmdRunner.FirstRejected(outcome, |g.tasks|) < |g.tasks|)
      && |errors| <= 1
  {
    SubTaskRunsMeaning(g, outcome);
  }

  /** The callback of command `j` is the one shown for its state relative
      to the first rejection. */
  lemma {:induction false} SubTaskBodyIs(g: Group, outcome: nat -> Settled, j: nat)
    requires j < |g.tasks|
    ensures SubTaskBody(g, outcome, j)
            == ShownBody(g.tasks[j], CmdRunner.StateAt(j, CmdRunner.FirstRejected(outcome, |g.tasks|)))
  {
    SubTaskRunsMeaning(g, outcome);
  }

  function SubTaskJobs(g: Group, outcome: nat -> Settled): (jobs: seq<Job>)
    ensures |jobs| == |g.tasks|
  {
    seq(|g.tasks|, j requires 0 <= j < |g.tasks| => Job(g.tasks[j].title, SubTaskBody(g, outcome, j)))
  }

  /** The messages a group's callback collects: one for the failed command, if any. */
  function GroupErrors(g: Group, outcome: nat -> Settled): seq<string>
  {
    if g.fileCount != 0 then SubTaskRuns(g, outcome, |g.tasks|).errors else []
  }

  /** The callback of a group: a warning when no file matched; otherwise the
      commands as a `task.group`, then an error state when they pushed a
      message. The thrown message list is caught inside, so the callback
      never throws. */
  function GroupBody(g: Group, outcome: nat -> Settled): Body
  {
    if g.fileCount == 0 then Body([Update(None, Some(Warning))], false)
    else
      Body([Grouped(SubTaskJobs(g, outcome))]
           + (if SubTaskRuns(g, outcome, |g.tasks|).errors != [] then [Update(None, Some(Error))] else []),
           false)
  }

  function GroupJobs(groups: seq<Group>, outcome: (nat, nat) -> Settled): (jobs: seq<Job>)
    ensures |jobs| == |groups|
  {
    seq(|groups|, i requires 0 <= i < |groups| => Job(groups[i].title, GroupBody(groups[i], CmdRunner.OutcomesOf(outcome, i))))
  }

  function AsNested(jobs: seq<Job>): (actions: seq<Action>)
    ensures |actions| == |jobs|
  {
    seq(|jobs|, i requires 0 <= i < |jobs| => Nested(jobs[i].title, jobs[i].body))
  }

  /** Whether some group's callback collected a message. */
  predicate AnyGroupFailed(groups: seq<Group>, outcome: (nat, nat) -> Settled)
  {
    exists i :: 0 <= i < |groups| && GroupErrors(groups[i], CmdRunner.OutcomesOf(outcome, i)) != []
  }

  /** The callback of the step: every group task, then an error state when
      the aggregate error was thrown (and caught in the same callback). */
  function StepBody(groups: seq<Group>, outcome: (nat, nat) -> Settled): Body
  {
    Body(AsNested(GroupJobs(groups, outcome))
         + (if AnyGroupFailed(groups, outcome) then [Update(None, Some(Error))] else []),
         false)
  }

  /** What the step records in the runner's error list: the aggregate error,
      its messages in the order the groups finished. */
  function StepResult(groups: seq<Group>, outcome: (nat, nat) -> Settled, order: seq<nat>): CmdRunner.RunResult
    requires IsCompletionOrder(order, |groups|)
  {
    var errors := Collect(seq(|groups|, i requires 0 <= i < |groups| => GroupErrors(groups[i], CmdRunner.OutcomesOf(outcome, i))), order);
    if |errors| > 0 then CmdRunner.Failed(OutputData(errors)) else CmdRunner.Ok
  }

  /** The step's entry as the renderer is left with it. */
  function RunningStep(title: string, groups: seq<Group>, outcome: (nat, nat) -> Settled): Entry
  {
    Run(Fresh(title), StepBody(groups, outcome)).0
  }

  /** The state shown for command `j`: `success` before the first failure,
      `error` (with the title kept) at it, `warning` after it. */
  function SubTaskState(outcome: nat -> Settled, n: nat, j: nat): State
  {
    var k := CmdRunner.FirstRejected(outcome, n);
    if j < k then Success else if j == k then Error else Warning
  }

  /** Each command's entry ends in the state its position relative to the
      first failure gives it, keeps its title, and has no children. */
  lemma {:induction false} SubTaskEntry(g: Group, outcome: nat -> Settled, j: nat)
    requires j < |g.tasks|
    ensures var body := SubTaskBody(g, outcome, j);
      && !body.throws && NoNestedThrow(body.actions)
      && !Run(Fresh(g.tasks[j].title), body).1
      && Run(Fresh(g.tasks[j].title), body).0
         == Entry(g.tasks[j].title, SubTaskState(outcome, |g.tasks|, j), [], false)
  {
    var body := SubTaskBody(g, outcome, j);
    SubTaskBodyIs(g, outcome, j);
    assert NoNestedThrow(body.actions);
    assert body.actions == [] || body.actions[..0] == [];
    RunPromotes(Fresh(g.tasks[j].title), body);
  }

  lemma {:induction false} SubTaskJobsDoNotThrow(g: Group, outcome: nat -> Settled)
    ensures NoneThrows(SubTaskJobs(g, outcome))
  {
    var jobs := SubTaskJobs(g, outcome);
    forall j | 0 <= j < |jobs| ensures !jobs[j].body.throws && NoNestedThrow(jobs[j].body.actions) {
      SubTaskEntry(g, outcome, j);
    }
  }

  /** A group's callback never throws. */
  lemma {:induction false} GroupBodyDoesNotThrow(g: Group, outcome: nat -> Settled)
    ensures !GroupBody(g, outcome).throws && NoNestedThrow(GroupBody(g, outcome).actions)
  {
    SubTaskJobsDoNotThrow(g, outcome);
  }

  /** The shape of a group's callback: no title update, the commands as its
      only nested tasks, and the last state it sets. */
  lemma {:induction false} GroupBodyShape(g: Group, outcome: nat -> Settled)
    ensures var actions := GroupBody(g, outcome).actions;
      && LastTitle(actions) == None
      && (g.fileCount == 0 ==> NestedTasks(actions) == [] && LastState(actions) == Some(Warning))
      && (g.fileCount != 0 ==> NestedTasks(actions) == SubTaskJobs(g, outcome))
      && (g.fileCount != 0 ==>
            LastState(actions) == (if CmdRunner.FirstRejected(outcome, |g.tasks|) < |g.tasks| then Some(Error) else None))
  {
    var actions := GroupBody(g, outcome).actions;
    SubTaskErrorsIffRejected(g, outcome);
    if g.fileCount != 0 {
      var jobs := SubTaskJobs(g, outcome);
      var a0 := [Grouped(jobs)];
      assert a0[..0] == [];
      assert NestedTasks(a0) == jobs && LastTitle(a0) == None && LastState(a0) == None;
      if CmdRunner.FirstRejected(outcome, |g.tasks|) < |g.tasks| {
        var a1 := a0 + [Update(None, Some(Error))];
        assert a1[..1] == a0;
        assert actions == a1;
      } else {
        assert actions == a0;
      }
    } else {
      assert actions[..0] == [];
    }
  }

  /** A group without files shows a warning and has no command entries; a
      group with files has one entry per command, in order, as
      `SubTaskEntry` describes, and shows `error` exactly when a command
      failed, `success` otherwise. */
  lemma {:induction false} GroupEntry(g: Group, outcome: nat -> Settled)
    ensures var e := Run(Fresh(g.title), GroupBody(g, outcome));
      && !e.1
      && e.0.title == g.title
      && (g.fileCount == 0 ==> e.0.state == Warning && e.0.children == [])
      && (g.fileCount != 0 ==> e.0.state == (if CmdRunner.FirstRejected(outcome, |g.tasks|) < |g.tasks| then Error else Success))
      && (g.fileCount != 0 ==> |e.0.children| == |g.tasks|)
      && (g.fileCount != 0 ==> forall j :: 0 <= j < |g.tasks| ==>
            e.0.children[j] == Entry(g.tasks[j].title, SubTaskState(outcome, |g.tasks|, j), [], false))
  {
    var body := GroupBody(g, outcome);
    GroupBodyDoesNotThrow(g, outcome);
    GroupBodyShape(g, outcome);
    RunPromotes(Fresh(g.title), body);
    if g.fileCount != 0 {
      var jobs := SubTaskJobs(g, outcome);
      forall j | 0 <= j < |g.tasks|
        ensures Run(Fresh(jobs[j].title), jobs[j].body).0
                == Entry(g.tasks[j].title, SubTaskState(outcome, |g.tasks|, j), [], false)
      {
        SubTaskEntry(g, outcome, j);
      }
    }
  }

  lemma {:induction false} NestedTasksOfJobs(jobs: seq<Job>)
    ensures NestedTasks(AsNested(jobs)) == jobs
    ensures LastState(AsNested(jobs)) == None
    decreases |jobs|
  {
    if |jobs| > 0 {
      var init := jobs[..|jobs| - 1];
      NestedTasksOfJobs(init);
      assert AsNested(jobs)[..|jobs| - 1] == AsNested(init);
    }
  }

  lemma {:induction false} NestedTasksWithUpdate(actions: seq<Action>, u: Action)
    requires u.Update?
    ensures NestedTasks(actions + [u]) == NestedTasks(actions)
    ensures LastState(actions + [u]) == (if u.newState.Some? then u.newState else LastState(actions))
  {
    assert (actions + [u])[..|actions|] == actions;
  }

  lemma {:induction false} GroupJobsDoNotThrow(groups: seq<Group>, outcome: (nat, nat) -> Settled)
    ensures NoNestedThrow(StepBody(groups, outcome).actions)
  {
    var jobs := GroupJobs(groups, outcome);
    var actions := StepBody(groups, outcome).actions;
    forall i | 0 <= i < |actions|
      ensures match actions[i]
        case Update(_, _) => true
        case Nested(_, b) => !b.throws && NoNestedThrow(b.actions)
        case Grouped(ts) => NoneThrows(ts)
    {
      if i < |groups| {
        GroupBodyDoesNotThrow(groups[i], CmdRunner.OutcomesOf(outcome, i));
      }
    }
  }

  /** A callback that runs `jobs` as nested tasks and then sets `error`
      when `failed`: it never throws, shows `error` exactly when `failed`,
      and has the run of each job as a child, in order. */
  lemma {:induction false} NestedJobsRun(title: string, jobs: seq<Job>, failed: bool)
    requires NoNestedThrow(AsNested(jobs) + (if failed then [Update(None, Some(Error))] else []))
    ensures var body := Body(AsNested(jobs) + (if failed then [Update(None, Some(Error))] else []), false);
      var e := Run(Fresh(title), body).0;
      && !Run(Fresh(title), body).1
      && e.state == (if failed then Error else Success)
      && |e.children| == |jobs|
      && forall i :: 0 <= i < |jobs| ==> e.children[i] == Run(Fresh(jobs[i].title), jobs[i].body).0
  {
    var body := Body(AsNested(jobs) + (if failed then [Update(None, Some(Error))] else []), false);
    RunPromotes(Fresh(title), body);
    NestedTasksOfJobs(jobs);
    if failed {
      NestedTasksWithUpdate(AsNested(jobs), Update(None, Some(Error)));
    } else {
      assert body.actions == AsNested(jobs);
    }
  }

  /** The step's entry in terms of the group jobs. */
  lemma {:induction false} StepEntryOfJobs(title: string, groups: seq<Group>, outcome: (nat, nat) -> Settled)
    ensures var e := RunningStep(title, groups, outcome);
      var jobs := GroupJobs(groups, outcome);
      && !Run(Fresh(title), StepBody(groups, outcome)).1
      && e.state == (if AnyGroupFailed(groups, outcome) then Error else Success)
      && |e.children| == |groups|
      && forall i :: 0 <= i < |groups| ==> e.children[i] == Run(Fresh(jobs[i].title), jobs[i].body).0
  {
    GroupJobsDoNotThrow(groups, outcome);
    NestedJobsRun(title, GroupJobs(groups, outcome), AnyGroupFailed(groups, outcome));
  }

  /** The step's entry: one child per group, in configuration order, as
      `GroupEntry` describes; it shows `error` exactly when some group
      failed and `success` otherwise. */
  lemma {:induction false} StepEntry(title: string, groups: seq<Group>, outcome: (nat, nat) -> Settled)
    ensures var e := RunningStep(title, groups, outcome);
      && !Run(Fresh(title), StepBody(groups, outcome)).1
      && e.state == (if AnyGroupFailed(groups, outcome) then Error else Success)
      && |e.children| == |groups|
      && forall i :: 0 <= i < |groups| ==>
           e.children[i] == Run(Fresh(groups[i].title), GroupBody(groups[i], CmdRunner.OutcomesOf(outcome, i))).0
  {
    StepEntryOfJobs(title, groups, outcome);
    var jobs := GroupJobs(groups, outcome);
    forall i | 0 <= i < |groups|
      ensures jobs[i] == Job(groups[i].title, GroupBody(groups[i], CmdRunner.OutcomesOf(outcome, i)))
    {
    }
  }

  /** A group shows `error` exactly when it collected a message, and it
      collects at most one. */
  lemma {:induction false} GroupFailsWithOneMessage(g: Group, outcome: nat -> Settled)
    ensures Run(Fresh(g.title), GroupBody(g, outcome)).0.state == Error <==> GroupErrors(g, outcome) != []
    ensures |GroupErrors(g, outcome)| <= 1
  {
    GroupEntry(g, outcome);
    SubTaskErrorsIffRejected(g, outcome);
  }

  /** The step records an error exactly when some group shows `error`. */
  lemma {:induction false} StepFailsIffSomeGroupFails(groups: seq<Group>, outcome: (nat, nat) -> Settled, order: seq<nat>)
    requires IsCompletionOrder(order, |groups|)
    ensures StepResult(groups, outcome, order).Failed?
            <==> exists i :: 0 <= i < |groups|
                   && Run(Fresh(groups[i].title), GroupBody(groups[i], CmdRunner.OutcomesOf(outcome, i))).0.state == Error
  {
    var perGroup := seq(|groups|, i requires 0 <= i < |groups| => GroupErrors(groups[i], CmdRunner.OutcomesOf(outcome, i)));
    CollectEmpty(perGroup, order);
    forall i | 0 <= i < |groups|
      ensures Run(Fresh(groups[i].title), GroupBody(groups[i], CmdRunner.OutcomesOf(outcome, i))).0.state == Error
              <==> perGroup[i] != []
    {
      GroupFailsWithOneMessage(groups[i], CmdRunner.OutcomesOf(outcome, i));
    }
    if StepResult(groups, outcome, order).Ok? {
      forall i | 0 <= i < |groups| ensures perGroup[i] == [] {
        assert i in order;
        var j :| 0 <= j < |order| && order[j] == i;
      }
    }
  }

  /** The renderer step and the command-line runner agree: a group's state
      and each command's state correspond (`done`/`success`, `fail`/`error`,
      `warn`/`warning`), the same commands have `run()` called, and they
      collect the same messages. */
  lemma {:induction false} AgreesWithCmdRunner(g: Group, outcome: nat -> Settled)
    ensures var e := Run(Fresh(g.title), GroupBody(g, outcome)).0;
      && e.state == Shown(CmdRunner.GroupState(g, outcome))
      && (g.fileCount != 0 ==> |e.children| == |g.tasks|)
      && (g.fileCount != 0 ==> forall j :: 0 <= j < |g.tasks| ==>
            e.children[j].state == Shown(CmdRunner.StateAfter(outcome, |g.tasks|, j)))
    ensures SubTaskRuns(g, outcome, |g.tasks|).calls == CmdRunner.Steps(g, outcome, |g.tasks|).calls
    ensures GroupErrors(g, outcome) == CmdRunner.GroupFailure(g, outcome)
  {
    GroupEntry(g, outcome);
    SameCallsAndMessages(g, outcome);
  }

  lemma {:induction false} SameCallsAndMessages(g: Group, outcome: nat -> Settled)
    ensures SubTaskRuns(g, outcome, |g.tasks|).calls == CmdRunner.Steps(g, outcome, |g.tasks|).calls
    ensures GroupErrors(g, outcome) == CmdRunner.GroupFailure(g, outcome)
  {
    SubTaskRunsMirrorSteps(g, outcome, |g.tasks|);
    SubTaskRunsMeaning(g, outcome);
  }

  /** The running step records the same messages, collected in the same
      completion order, as `lib/cmd-runner.js` `run` rejects with. */
  lemma {:induction false} StepResultAgrees(groups: seq<Group>, outcome: (nat, nat) -> Settled, order: seq<nat>)
    requires IsCompletionOrder(order, |groups|)
    ensures var errors := Collect(seq(|groups|, i requires 0 <= i < |groups| =>
                                        CmdRunner.GroupFailure(groups[i], CmdRunner.OutcomesOf(outcome, i))), order);
      StepResult(groups, outcome, order) == (if |errors| > 0 then CmdRunner.Failed(OutputData(errors)) else CmdRunner.Ok)
  {
    var ours := seq(|groups|, i requires 0 <= i < |groups| => GroupErrors(groups[i], CmdRunner.OutcomesOf(outcome, i)));
    var theirs := seq(|groups|, i requires 0 <= i < |groups| => CmdRunner.GroupFailure(groups[i], CmdRunner.OutcomesOf(outcome, i)));
    forall i | 0 <= i < |groups| ensures ours[i] == theirs[i] {
      AgreesWithCmdRunner(groups[i], CmdRunner.OutcomesOf(outcome, i));
    }
    assert ours == theirs;
  }

  /** The renderer state matching a command-line runner state. */
  function Shown(s: CmdRunner.CmdState): State
  {
    match s
    case Unset => Pending
    case Running => Loading
    case Done => Success
    case Warn => Warning
    case Fail => Error
  }
}
