/** lib/cmd-runner.js: running the generated groups without the terminal
    renderer. Each group runs its commands one after another; the first
    command that fails marks the rest as skipped without running them, and
    the groups run side by side. `generate_cmd_tasks` is the same loop as
    `generate_tasks` and is modelled by `TaskGeneration.GenerateTasks`.
    How each command's promise settles is given by an `outcome` oracle, and
    the order in which the groups finish by a completion order. */
module CmdRunner {
  import opened Executor
  import opened TaskGeneration
  import opened Messages

  /** The `state` field the runner writes; `Unset` is the field never assigned. */
  datatype CmdState = Unset | Running | Done | Warn | Fail

  /** A command as the runner leaves it: its title and state. */
  datatype TaskReport = TaskReport(title: string, state: CmdState)

  /** A group as the runner leaves it: its state, its commands, the indices
      of the commands whose `run` was called, in call order, and the
      messages it threw. */
  datatype GroupReport = GroupReport(state: CmdState, tasks: seq<TaskReport>, calls: seq<nat>, errors: seq<string>)

  /** How `run` settles: normally, or with an output error carrying `data`. */
  datatype RunResult = Ok | Failed(data: string)

  /** The first of `n` commands whose promise rejects, or `n` when none does. */
  function FirstRejected(outcome: nat -> Settled, n: nat): (k: nat)
    ensures k <= n
    ensures forall j :: 0 <= j < k ==> outcome(j).Resolved?
    ensures k < n ==> outcome(k).Rejected?
  {
    if n == 0 then 0
    else
      var k := FirstRejected(outcome, n - 1);
      if k < n - 1 then k
      else if outcome(n - 1).Rejected? then n - 1
      else n
  }

  /** Rejections past `n` do not change the first one below `n`. */
  lemma {:induction false} FirstRejectedPrefix(outcome: nat -> Settled, n: nat, m: nat)
    requires n <= m
    ensures FirstRejected(outcome, n) == (if FirstRejected(outcome, m) < n then FirstRejected(outcome, m) else n)
  {
    var k := FirstRejected(outcome, m);
    var kn := FirstRejected(outcome, n);
    if kn < n {
      assert outcome(kn).Rejected?;
      assert k <= kn;
    }
  }

  /** The indices 0 .. n-1 in increasing order. */
  function Range(n: nat): (r: seq<nat>)
    ensures |r| == n
    ensures forall j :: 0 <= j < n ==> r[j] == j
  {
    if n == 0 then [] else Range(n - 1) + [n - 1]
  }

  /** The state command `j` of `n` ends in: done before the first rejection,
      fail at it, warn (skipped) after it. */
  function StateAfter(outcome: nat -> Settled, n: nat, j: nat): CmdState
  {
    StateAt(j, FirstRejected(outcome, n))
  }

  /** The state of command `j` when command `k` is the first to reject. */
  function StateAt(j: nat, k: nat): CmdState
  {
    if j < k then Done else if j == k then Fail else Warn
  }

  /** The message a failed command contributes. */
  function TaskFailure(t: SubTask, output: string): string
  {
    FailureMessage(t.pattern, t.title, output)
  }

  /** What `run_task` has built after some commands: the reports, the
      indices whose `run` was called, the messages, and the `skipped` flag. */
  datatype Progress = Progress(reports: seq<TaskReport>, calls: seq<nat>, errors: seq<string>, skipped: bool)

  /** One pass of the loop over command `i`, whose promise settles as `s`. */
  function Step(p: Progress, t: SubTask, i: nat, s: Settled): Progress
  {
    if p.skipped then p.(reports := p.reports + [TaskReport(t.title, Warn)])
    else if s.Resolved? then p.(reports := p.reports + [TaskReport(t.title, Done)], calls := p.calls + [i])
    else Progress(p.reports + [TaskReport(t.title, Fail)], p.calls + [i], p.errors + [TaskFailure(t, s.output)], true)
  }

  /** The loop over the first `i` commands. */
  function Steps(g: Group, outcome: nat -> Settled, i: nat): Progress
    requires i <= |g.tasks|
  {
    if i == 0 then Progress([], [], [], false)
    else Step(Steps(g, outcome, i - 1), g.tasks[i - 1], i - 1, outcome(i - 1))
  }

  /** What the loop has built after the first `i` commands: those before the
      first rejection among them are done, it has failed, later ones are
      skipped; only commands up to the rejection were called; its message is
      the only one. */
  predicate Describes(g: Group, outcome: nat -> Settled, i: nat, p: Progress)
    requires i <= |g.tasks|
  {
    var k := FirstRejected(outcome, i);
    && |p.reports| == i
    && (p.skipped <==> k < i)
    && (forall j :: 0 <= j < i ==> p.reports[j] == TaskReport(g.tasks[j].title, StateAt(j, k)))
    && p.calls == Range(if k < i then k + 1 else i)
    && p.errors == (if k < i then [TaskFailure(g.tasks[k], outcome(k).output)] else [])
  }

  lemma {:induction false} StepsMeaning(g: Group, outcome: nat -> Settled, i: nat)
    requires i <= |g.tasks|
    ensures Describes(g, outcome, i, Steps(g, outcome, i))
  {
    if i > 0 {
      var m := i - 1;
      StepsMeaning(g, outcome, m);
      var p := Steps(g, outcome, m);
      if p.skipped {
        StepAfterSkip(g, outcome, m, p);
      } else if outcome(m).Resolved? {
        StepResolves(g, outcome, m, p);
      } else {
        StepRejects(g, outcome, m, p);
      }
    }
  }

  /** Reports of the first `m` commands, each in the state the first
      rejection `k` gives it, extended by the report of command `m`. */
  lemma {:induction false} ReportsSnoc(g: Group, reports: seq<TaskReport>, m: nat, k: nat)
    requires m < |g.tasks| && |reports| == m
    requires forall j :: 0 <= j < m ==> reports[j] == TaskReport(g.tasks[j].title, StateAt(j, k))
    ensures var out := reports + [TaskReport(g.tasks[m].title, StateAt(m, k))];
      forall j :: 0 <= j < m + 1 ==> out[j] == TaskReport(g.tasks[j].title, StateAt(j, k))
  {
    var out := reports + [TaskReport(g.tasks[m].title, StateAt(m, k))];
    forall j | 0 <= j < m + 1 ensures out[j] == TaskReport(g.tasks[j].title, StateAt(j, k)) {
      if j < m {
        assert out[j] == reports[j];
      }
    }
  }

  /** Past a rejection, a command is only marked `warn`. */
  lemma {:induction false} StepAfterSkip(g: Group, outcome: nat -> Settled, m: nat, p: Progress)
    requires m < |g.tasks| && Describes(g, outcome, m, p) && p.skipped
    ensures Describes(g, outcome, m + 1, Step(p, g.tasks[m], m, outcome(m)))
  {
    var k := FirstRejected(outcome, m);
    assert FirstRejected(outcome, m + 1) == k;
    assert StateAt(m, k) == Warn;
    ReportsSnoc(g, p.reports, m, k);
  }

  /** Before any rejection, a resolving command is called and done. */
  lemma {:induction false} StepResolves(g: Group, outcome: nat -> Settled, m: nat, p: Progress)
    requires m < |g.tasks| && Describes(g, outcome, m, p) && !p.skipped && outcome(m).Resolved?
    ensures Describes(g, outcome, m + 1, Step(p, g.tasks[m], m, outcome(m)))
  {
    assert FirstRejected(outcome, m) == m;
    assert FirstRejected(outcome, m + 1) == m + 1;
    var q := Step(p, g.tasks[m], m, outcome(m));
    assert q.reports == p.reports + [TaskReport(g.tasks[m].title, Done)];
    assert q.calls == Range(m) + [m];
  }

  /** The first rejecting command is called, fails, and gives the message. */
  lemma {:induction false} StepRejects(g: Group, outcome: nat -> Settled, m: nat, p: Progress)
    requires m < |g.tasks| && Describes(g, outcome, m, p) && !p.skipped && outcome(m).Rejected?
    ensures Describes(g, outcome, m + 1, Step(p, g.tasks[m], m, outcome(m)))
  {
    assert FirstRejected(outcome, m) == m;
    assert FirstRejected(outcome, m + 1) == m;
    var q := Step(p, g.tasks[m], m, outcome(m));
    assert q.reports == p.reports + [TaskReport(g.tasks[m].title, Fail)];
    assert q.calls == Range(m) + [m];
  }

  /** The loop of `run_task` over the commands of a group. */
  method RunCommands(g: Group, outcome: nat -> Settled)
    returns (reports: seq<TaskReport>, calls: seq<nat>, errors: seq<string>, skipped: bool)
    ensures Progress(reports, calls, errors, skipped) == Steps(g, outcome, |g.tasks|)
  {
    var n := |g.tasks|;
    skipped := false;
    reports, calls, errors := [], [], [];
    var i := 0;
    while i < n
      invariant i <= n
      invariant Progress(reports, calls, errors, skipped) == Steps(g, outcome, i)
    {
      var t := g.tasks[i];
      if skipped {
        reports := reports + [TaskReport(t.title, Warn)];
      } else {
        calls := calls + [i];
        var settled := outcome(i);
        if settled.Resolved? {
          reports := reports + [TaskReport(t.title, Done)];
        } else {
          skipped := true;
          reports := reports + [TaskReport(t.title, Fail)];
          errors := errors + [TaskFailure(t, settled.output)];
        }
      }
      i := i + 1;
    }
  }

  /** `run_task(parent_task)`: the commands run in order until one rejects;
      that one fails with its message, every later one is marked `warn` and
      its `run` is never called; the group throws exactly when a command
      failed, with that single message. */
  method RunTask(g: Group, outcome: nat -> Settled)
    returns (reports: seq<TaskReport>, calls: seq<nat>, errors: seq<string>)
    ensures var n := |g.tasks|;
      var k := FirstRejected(outcome, n);
      && |reports| == n
      && (forall j :: 0 <= j < n ==> reports[j] == TaskReport(g.tasks[j].title, StateAfter(outcome, n, j)))
      && calls == Range(if k < n then k + 1 else n)
      && errors == (if k < n then [TaskFailure(g.tasks[k], outcome(k).output)] else [])
  {
    var skipped;
    reports, calls, errors, skipped := RunCommands(g, outcome);
    StepsMeaning(g, outcome, |g.tasks|);
  }

  /** The state `run` leaves group `g` in: `warn` with no file, otherwise
      `done` unless one of its commands rejected. */
  function GroupState(g: Group, outcome: nat -> Settled): (s: CmdState)
    ensures s == Warn <==> g.fileCount == 0
    ensures s == Fail <==> g.fileCount != 0 && exists j :: 0 <= j < |g.tasks| && outcome(j).Rejected?
    ensures s == Done <==> g.fileCount != 0 && forall j :: 0 <= j < |g.tasks| ==> outcome(j).Resolved?
  {
    if g.fileCount == 0 then Warn
    else if FirstRejected(outcome, |g.tasks|) < |g.tasks| then Fail
    else Done
  }

  /** The outcome oracle of group `i`. */
  function OutcomesOf(outcome: (nat, nat) -> Settled, i: nat): nat -> Settled
  {
    (j: nat) => outcome(i, j)
  }

  /** The messages group `g` throws in `run`: the first rejecting
      command's, when the group has files and one rejects. */
  function GroupFailure(g: Group, outcome: nat -> Settled): seq<string>
  {
    var k := FirstRejected(outcome, |g.tasks|);
    if g.fileCount != 0 && k < |g.tasks| then [TaskFailure(g.tasks[k], outcome(k).output)] else []
  }

  /** What `run` leaves for group `g`: its state; with no file, every
      command untouched and nothing called; otherwise the commands as
      `run_task` leaves them and the calls it made; and the group's messages. */
  predicate Reported(g: Group, outcome: nat -> Settled, report: GroupReport)
  {
    var n := |g.tasks|;
    var k := FirstRejected(outcome, n);
    && report.state == GroupState(g, outcome)
    && |report.tasks| == n
    && report.errors == GroupFailure(g, outcome)
    && (g.fileCount == 0 ==> report.calls == [])
    && (g.fileCount == 0 ==> forall j :: 0 <= j < n ==> report.tasks[j] == TaskReport(g.tasks[j].title, Unset))
    && (g.fileCount != 0 ==> report.calls == Range(if k < n then k + 1 else n))
    && (g.fileCount != 0 ==> forall j :: 0 <= j < n ==> report.tasks[j] == TaskReport(g.tasks[j].title, StateAt(j, k)))
  }

  /** One group's part of `run`: a group without files is only marked; a
      group with files runs its commands, and a throw marks it failed with
      the one message. */
  method RunGroup(g: Group, outcome: nat -> Settled) returns (report: GroupReport)
    ensures Reported(g, outcome, report)
    ensures |report.errors| == (if report.state == Fail then 1 else 0)
  {
    if g.fileCount != 0 {
      var reports, calls, errors := RunTask(g, outcome);
      var state := if |errors| > 0 then Fail else Done;
      report := GroupReport(state, reports, calls, errors);
    } else {
      var untouched := seq(|g.tasks|, j requires 0 <= j < |g.tasks| => TaskReport(g.tasks[j].title, Unset));
      report := GroupReport(Warn, untouched, [], []);
    }
  }

  /** The groups of `run`, each run to its end by `RunGroup`. */
  method RunGroups(groups: seq<Group>, outcome: (nat, nat) -> Settled) returns (reports: seq<GroupReport>)
    ensures |reports| == |groups|
    ensures forall i :: 0 <= i < |groups| ==> Reported(groups[i], OutcomesOf(outcome, i), reports[i])
  {
    reports := [];
    var i := 0;
    while i < |groups|
      invariant i <= |groups| && |reports| == i
      invariant forall j :: 0 <= j < i ==> Reported(groups[j], OutcomesOf(outcome, j), reports[j])
    {
      var r := RunGroup(groups[i], OutcomesOf(outcome, i));
      ReportedSnoc(groups, outcome, reports, r);
      reports := reports + [r];
      i := i + 1;
    }
  }

  lemma {:induction false} ReportedSnoc(groups: seq<Group>, outcome: (nat, nat) -> Settled, reports: seq<GroupReport>, r: GroupReport)
    requires |reports| < |groups|
    requires forall j :: 0 <= j < |reports| ==> Reported(groups[j], OutcomesOf(outcome, j), reports[j])
    requires Reported(groups[|reports|], OutcomesOf(outcome, |reports|), r)
    ensures forall j :: 0 <= j < |reports| + 1 ==> Reported(groups[j], OutcomesOf(outcome, j), (reports + [r])[j])
  {
    forall j | 0 <= j < |reports| + 1 ensures Reported(groups[j], OutcomesOf(outcome, j), (reports + [r])[j]) {
      if j < |reports| {
        assert (reports + [r])[j] == reports[j];
      }
    }
  }

  /** `run(parent_task)`: every group runs to its end (`Promise.all` over
      callbacks that catch their own throw), leaving the report `Reported`
      describes; the messages are collected in the order the groups finish,
      and `run` rejects exactly when some group failed, with all the
      messages joined. */
  method Run(groups: seq<Group>, outcome: (nat, nat) -> Settled, order: seq<nat>)
    returns (reports: seq<GroupReport>, result: RunResult)
    requires IsCompletionOrder(order, |groups|)
    ensures |reports| == |groups|
    ensures forall i :: 0 <= i < |groups| ==> Reported(groups[i], OutcomesOf(outcome, i), reports[i])
    ensures result.Failed? <==> exists i :: 0 <= i < |groups| && reports[i].state == Fail
    ensures result.Failed? ==>
              result.data == OutputData(Collect(seq(|groups|, i requires 0 <= i < |groups| =>
                                                      GroupFailure(groups[i], OutcomesOf(outcome, i))), order))
  {
    reports := RunGroups(groups, outcome);
    var perGroup := seq(|groups|, i requires 0 <= i < |groups| => reports[i].errors);
    assert perGroup == seq(|groups|, i requires 0 <= i < |groups| => GroupFailure(groups[i], OutcomesOf(outcome, i)));
    var errors := Collect(perGroup, order);
    CollectEmpty(perGroup, order);
    if |errors| > 0 {
      result := Failed(OutputData(errors));
    } else {
      result := Ok;
      forall i | 0 <= i < |groups| ensures reports[i].state != Fail {
        assert i in order;
        var j :| 0 <= j < |order| && order[j] == i;
        assert perGroup[order[j]] == [];
      }
    }
  }
}
