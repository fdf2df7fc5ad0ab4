/** lib/runner.js: the seven steps around the tasks, sequenced by three
    flags. `skip_all` is set when the original state cannot be saved and
    stops everything, cleanup included; `revert` is set by a failure that
    needs a rollback; `clear` is reset when the rollback itself fails, which
    keeps the patch files for a manual recovery. Git behaves as the `Git`
    oracle says; what the tasks do to the repository is the `tasksEffect`
    parameter and how their commands end is the command outcome oracle. */
module Runner {
  import opened Results
  import opened Paths
  import opened Repository
  import opened TaskGeneration
  import opened GitWorkflow
  import opened Messages
  import CmdRunner
  import GroupRunner
  import Executor

  datatype StepKind = Preparing | BackingUp | RunningTasks | Applying | RestoringUnstaged | Reverting | CleaningUp

  /** The position of a step in the fixed order of lib/runner.js. */
  function Ord(k: StepKind): nat
  {
    match k
    case Preparing => 0
    case BackingUp => 1
    case RunningTasks => 2
    case Applying => 3
    case RestoringUnstaged => 4
    case Reverting => 5
    case CleaningUp => 6
  }

  /** An error the runner collects: a workflow failure, or the aggregate
      task error with its output data. */
  datatype RunError = StepFailed(failure: Failure) | TasksFailed(data: string)

  /** A step that ran: the repository before and after it, its effects, and
      the error it recorded, if any. */
  datatype Record = Record(kind: StepKind, before: Repo, after: Repo, trace: seq<Effect>, error: Option<RunError>)

  /** What the runner is given besides the oracles. */
  datatype Setup = Setup(
    mode: Mode,
    allowEmpty: bool,
    dot: AbsPath,
    changed: seq<string>,
    deleted: seq<string>,
    working: seq<string>)
  {
    /** `[...files.changed, ...files.deleted]`. */
    function Changes(): seq<string>
    {
      changed + deleted
    }

    predicate Staged()
    {
      mode != Unstaged && mode != Diff
    }
  }

  /** How the commands of the tasks end and how they touch the repository. */
  datatype TaskOracle = TaskOracle(
    groups: seq<Group>,
    outcome: (nat, nat) -> Executor.Settled,
    order: seq<nat>,
    effect: Repo -> Repo)

  /** The record of a workflow step from its result. */
  function FromStep(kind: StepKind, before: Repo, s: StepResult): Record
  {
    Record(kind, before, s.repo, s.trace,
           if s.failure.Some? then Some(StepFailed(s.failure.value)) else None)
  }

  /** The record of the running step: the tasks' effect on the repository,
      no git call, and the aggregate error when some group failed. */
  function TasksRecord(t: TaskOracle, before: Repo): Record
    requires IsCompletionOrder(t.order, |t.groups|)
  {
    var result := GroupRunner.StepResult(t.groups, t.outcome, t.order);
    Record(RunningTasks, before, t.effect(before), [],
           if result.Failed? then Some(TasksFailed(result.data)) else None)
  }

  /** The step table: what each step, started from a repository, records. */
  type Steps = (StepKind, Repo) -> Record

  /** Each entry of the table records the step it is asked for, started
      from the repository it is given. */
  ghost predicate Shaped(steps: Steps)
  {
    forall k, b :: steps(k, b).kind == k && steps(k, b).before == b
  }

  /** The table of lib/runner.js: each step is its workflow function of
      lib/git-workflow.js (the running step is the tasks), with the
      arguments `run` passes it. */
  ghost predicate Wired(steps: Steps, git: Git, setup: Setup, t: TaskOracle)
    requires IsCompletionOrder(t.order, |t.groups|)
  {
    && Shaped(steps)
    && (forall b {:trigger BackupOriginalState(git, b, setup.dot)} ::
          steps(Preparing, b) == FromStep(Preparing, b, BackupOriginalState(git, b, setup.dot)))
    && (forall b {:trigger BackupUnstagedFiles(git, b, setup.dot, setup.Changes())} ::
          steps(BackingUp, b) == FromStep(BackingUp, b, BackupUnstagedFiles(git, b, setup.dot, setup.Changes())))
    && (forall b {:trigger TasksRecord(t, b)} ::
          steps(RunningTasks, b) == TasksRecord(t, b))
    && (forall b {:trigger ApplyModifications(git, b, setup.allowEmpty, setup.working)} ::
          steps(Applying, b) == FromStep(Applying, b, ApplyModifications(git, b, setup.allowEmpty, setup.working)))
    && (forall b {:trigger RestoreUnstagedFiles(git, b, setup.dot, setup.Changes())} ::
          steps(RestoringUnstaged, b) == FromStep(RestoringUnstaged, b, RestoreUnstagedFiles(git, b, setup.dot, setup.Changes())))
    && (forall b {:trigger RestoreOriginalState(git, b, setup.dot)} ::
          steps(Reverting, b) == FromStep(Reverting, b, RestoreOriginalState(git, b, setup.dot)))
    && (forall b {:trigger CleanUp(b, setup.dot)} ::
          steps(CleaningUp, b) == FromStep(CleaningUp, b, CleanUp(b, setup.dot)))
  }

  /** What step `k` records when it starts from `before`. */
  function StepOf(k: StepKind, before: Repo, git: Git, setup: Setup, t: TaskOracle): (r: Record)
    requires IsCompletionOrder(t.order, |t.groups|)
    ensures r.kind == k && r.before == before
  {
    match k
    case Preparing => FromStep(Preparing, before, BackupOriginalState(git, before, setup.dot))
    case BackingUp => FromStep(BackingUp, before, BackupUnstagedFiles(git, before, setup.dot, setup.Changes()))
    case RunningTasks => TasksRecord(t, before)
    case Applying => FromStep(Applying, before, ApplyModifications(git, before, setup.allowEmpty, setup.working))
    case RestoringUnstaged => FromStep(RestoringUnstaged, before, RestoreUnstagedFiles(git, before, setup.dot, setup.Changes()))
    case Reverting => FromStep(Reverting, before, RestoreOriginalState(git, before, setup.dot))
    case CleaningUp => FromStep(CleaningUp, before, CleanUp(before, setup.dot))
  }

  /** The step table `run` uses. */
  function StepsFor(git: Git, setup: Setup, t: TaskOracle): Steps
    requires IsCompletionOrder(t.order, |t.groups|)
  {
    (k: StepKind, before: Repo) => StepOf(k, before, git, setup, t)
  }

  /** The table `run` uses is wired to the workflow functions. */
  lemma {:induction false} StepsForWired(git: Git, setup: Setup, t: TaskOracle)
    requires IsCompletionOrder(t.order, |t.groups|)
    ensures Wired(StepsFor(git, setup, t), git, setup, t)
  {
    var steps := StepsFor(git, setup, t);
    forall k, b ensures steps(k, b).kind == k && steps(k, b).before == b {
      assert steps(k, b) == StepOf(k, b, git, setup, t);
    }
    StepsForPreparing(git, setup, t);
    StepsForBackingUp(git, setup, t);
    StepsForRunningTasks(git, setup, t);
    StepsForApplying(git, setup, t);
    StepsForRestoringUnstaged(git, setup, t);
    StepsForReverting(git, setup, t);
    StepsForCleaningUp(git, setup, t);
  }

  lemma {:induction false} StepsForPreparing(git: Git, setup: Setup, t: TaskOracle)
    requires IsCompletionOrder(t.order, |t.groups|)
    ensures forall b {:trigger BackupOriginalState(git, b, setup.dot)} :: StepsFor(git, setup, t)(Preparing, b) == FromStep(Preparing, b, BackupOriginalState(git, b, setup.dot))
  {
    forall b ensures StepsFor(git, setup, t)(Preparing, b) == FromStep(Preparing, b, BackupOriginalState(git, b, setup.dot)) {
      assert StepsFor(git, setup, t)(Preparing, b) == StepOf(Preparing, b, git, setup, t);
    }
  }

  lemma {:induction false} StepsForBackingUp(git: Git, setup: Setup, t: TaskOracle)
    requires IsCompletionOrder(t.order, |t.groups|)
    ensures forall b {:trigger BackupUnstagedFiles(git, b, setup.dot, setup.Changes())} :: StepsFor(git, setup, t)(BackingUp, b) == FromStep(BackingUp, b, BackupUnstagedFiles(git, b, setup.dot, setup.Changes()))
  {
    forall b ensures StepsFor(git, setup, t)(BackingUp, b) == FromStep(BackingUp, b, BackupUnstagedFiles(git, b, setup.dot, setup.Changes())) {
      assert StepsFor(git, setup, t)(BackingUp, b) == StepOf(BackingUp, b, git, setup, t);
    }
  }

  lemma {:induction false} StepsForRunningTasks(git: Git, setup: Setup, t: TaskOracle)
    requires IsCompletionOrder(t.order, |t.groups|)
    ensures forall b {:trigger TasksRecord(t, b)} :: StepsFor(git, setup, t)(RunningTasks, b) == TasksRecord(t, b)
  {
    forall b ensures StepsFor(git, setup, t)(RunningTasks, b) == TasksRecord(t, b) {
      assert StepsFor(git, setup, t)(RunningTasks, b) == StepOf(RunningTasks, b, git, setup, t);
    }
  }

  lemma {:induction false} StepsForApplying(git: Git, setup: Setup, t: TaskOracle)
    requires IsCompletionOrder(t.order, |t.groups|)
    ensures forall b {:trigger ApplyModifications(git, b, setup.allowEmpty, setup.working)} :: StepsFor(git, setup, t)(Applying, b) == FromStep(Applying, b, ApplyModifications(git, b, setup.allowEmpty, setup.working))
  {
    forall b ensures StepsFor(git, setup, t)(Applying, b) == FromStep(Applying, b, ApplyModifications(git, b, setup.allowEmpty, setup.working)) {
      assert StepsFor(git, setup, t)(Applying, b) == StepOf(Applying, b, git, setup, t);
    }
  }

  lemma {:induction false} StepsForRestoringUnstaged(git: Git, setup: Setup, t: TaskOracle)
    requires IsCompletionOrder(t.order, |t.groups|)
    ensures forall b {:trigger RestoreUnstagedFiles(git, b, setup.dot, setup.Changes())} :: StepsFor(git, setup, t)(RestoringUnstaged, b) == FromStep(RestoringUnstaged, b, RestoreUnstagedFiles(git, b, setup.dot, setup.Changes()))
  {
    forall b ensures StepsFor(git, setup, t)(RestoringUnstaged, b) == FromStep(RestoringUnstaged, b, RestoreUnstagedFiles(git, b, setup.dot, setup.Changes())) {
      assert StepsFor(git, setup, t)(RestoringUnstaged, b) == StepOf(RestoringUnstaged, b, git, setup, t);
    }
  }

  lemma {:induction false} StepsForReverting(git: Git, setup: Setup, t: TaskOracle)
    requires IsCompletionOrder(t.order, |t.groups|)
    ensures forall b {:trigger RestoreOriginalState(git, b, setup.dot)} :: StepsFor(git, setup, t)(Reverting, b) == FromStep(Reverting, b, RestoreOriginalState(git, b, setup.dot))
  {
    forall b ensures StepsFor(git, setup, t)(Reverting, b) == FromStep(Reverting, b, RestoreOriginalState(git, b, setup.dot)) {
      assert StepsFor(git, setup, t)(Reverting, b) == StepOf(Reverting, b, git, setup, t);
    }
  }

  lemma {:induction false} StepsForCleaningUp(git: Git, setup: Setup, t: TaskOracle)
    requires IsCompletionOrder(t.order, |t.groups|)
    ensures forall b {:trigger CleanUp(b, setup.dot)} :: StepsFor(git, setup, t)(CleaningUp, b) == FromStep(CleaningUp, b, CleanUp(b, setup.dot))
  {
    forall b ensures StepsFor(git, setup, t)(CleaningUp, b) == FromStep(CleaningUp, b, CleanUp(b, setup.dot)) {
      assert StepsFor(git, setup, t)(CleaningUp, b) == StepOf(CleaningUp, b, git, setup, t);
    }
  }

  /** A record is what its step does to the repository it started from. */
  predicate Faithful(r: Record, steps: Steps)
  {
    r == steps(r.kind, r.before)
  }

  predicate Ran(records: seq<Record>, k: StepKind)
  {
    exists i :: 0 <= i < |records| && records[i].kind == k
  }

  predicate FailedAt(records: seq<Record>, k: StepKind)
  {
    exists i :: 0 <= i < |records| && records[i].kind == k && records[i].error.Some?
  }

  /** The errors of the records, in step order. */
  function Errors(records: seq<Record>): (errors: seq<RunError>)
    ensures |errors| == 0 <==> forall i :: 0 <= i < |records| ==> records[i].error.None?
  {
    if |records| == 0 then []
    else
      var last := records[|records| - 1];
      Errors(records[..|records| - 1]) + (if last.error.Some? then [last.error.value] else [])
  }

  /** The step sequencing of lib/runner.js, stated by which steps ran: each
      step runs exactly when the flags its guard reads allow it, as the
      failures of earlier steps set them. */
  predicate Scheduled(setup: Setup, records: seq<Record>)
  {
    var changes := |setup.Changes()| > 0;
    && (Ran(records, BackingUp) <==> !FailedAt(records, Preparing) && setup.Staged() && changes)
    && (Ran(records, RunningTasks) <==> !FailedAt(records, Preparing) && !FailedAt(records, BackingUp))
    && (Ran(records, Applying) <==> Ran(records, RunningTasks) && !FailedAt(records, RunningTasks) && setup.Staged())
    && (Ran(records, RestoringUnstaged) <==> Ran(records, Applying) && !FailedAt(records, Applying) && changes)
    && (Ran(records, Reverting) <==>
          !FailedAt(records, Preparing)
          && (FailedAt(records, BackingUp) || FailedAt(records, RunningTasks) || FailedAt(records, Applying)))
    && (Ran(records, CleaningUp) <==> !FailedAt(records, Preparing) && !FailedAt(records, Reverting))
  }

  /** The first `n` records start with the preparation from `repo`; each
      later one comes later in the step order than the one before it and
      starts from the repository that one left; and each is what its step
      does. */
  predicate ChainedUpTo(repo: Repo, records: seq<Record>, n: nat, steps: Steps)
    requires n <= |records|
    decreases n
  {
    && n >= 1
    && Faithful(records[n - 1], steps)
    && if n == 1 then records[0].kind == Preparing && records[0].before == repo
       else
         && ChainedUpTo(repo, records, n - 1, steps)
         && records[n - 1].before == records[n - 2].after
         && Ord(records[n - 2].kind) < Ord(records[n - 1].kind)
  }

  predicate Chained(repo: Repo, records: seq<Record>, steps: Steps)
  {
    ChainedUpTo(repo, records, |records|, steps)
  }

  /** Appending a record leaves the chain of every prefix as it was. */
  lemma {:induction false} ChainedUpToSnoc(repo: Repo, records: seq<Record>, r: Record, n: nat, steps: Steps)
    requires n <= |records|
    requires ChainedUpTo(repo, records, n, steps)
    ensures ChainedUpTo(repo, records + [r], n, steps)
    decreases n
  {
    assert (records + [r])[n - 1] == records[n - 1];
    if n > 1 {
      assert (records + [r])[n - 2] == records[n - 2];
      ChainedUpToSnoc(repo, records, r, n - 1, steps);
    }
  }

  /** The chain, record by record: it starts with the preparation from
      `repo`, each record starts where the previous one ended and comes
      later in the step order, and each is what its step does. */
  lemma {:induction false} ChainedLinks(repo: Repo, records: seq<Record>, steps: Steps, n: nat)
    requires n <= |records|
    requires ChainedUpTo(repo, records, n, steps)
    ensures records[0].kind == Preparing && records[0].before == repo
    ensures forall i :: 0 < i < n ==> records[i].before == records[i - 1].after
    ensures forall i :: 0 < i < n ==> Ord(records[i - 1].kind) < Ord(records[i].kind)
    ensures forall i :: 0 <= i < n ==> Faithful(records[i], steps)
    decreases n
  {
    if n > 1 {
      ChainedLinks(repo, records, steps, n - 1);
    }
  }

  /** Adjacent records in step order make all of them in step order. */
  lemma {:induction false} AdjacentInOrder(records: seq<Record>, n: nat)
    requires n <= |records|
    requires forall i :: 0 < i < n ==> Ord(records[i - 1].kind) < Ord(records[i].kind)
    ensures forall i, j :: 0 <= i < j < n ==> Ord(records[i].kind) < Ord(records[j].kind)
    decreases n
  {
    if n > 1 {
      AdjacentInOrder(records, n - 1);
      forall i, j | 0 <= i < j < n ensures Ord(records[i].kind) < Ord(records[j].kind) {
        if j == n - 1 && i < n - 2 {
          assert Ord(records[i].kind) < Ord(records[n - 2].kind);
        }
      }
    }
  }

  /** A chain holds each step at most once, in the step order of
      lib/runner.js. */
  lemma {:induction false} ChainedInOrder(repo: Repo, records: seq<Record>, steps: Steps)
    requires Chained(repo, records, steps)
    ensures forall i, j :: 0 <= i < j < |records| ==> Ord(records[i].kind) < Ord(records[j].kind)
  {
    ChainedLinks(repo, records, steps, |records|);
    AdjacentInOrder(records, |records|);
  }

  /** The records so far are chained, and the next one may follow them. */
  predicate Extends(repo: Repo, records: seq<Record>, r: Record, steps: Steps)
  {
    && (|records| == 0 ==> r.kind == Preparing && r.before == repo)
    && (|records| > 0 ==>
          && Chained(repo, records, steps)
          && r.before == records[|records| - 1].after
          && Ord(records[|records| - 1].kind) < Ord(r.kind))
    && Faithful(r, steps)
  }

  /** Appends a record: it has run, it has failed if its error is set, its
      error joins the list, and the chain is kept. */
  function Push(records: seq<Record>, r: Record, ghost repo: Repo, steps: Steps): (out: seq<Record>)
    requires Extends(repo, records, r, steps)
    ensures out == records + [r]
    ensures Chained(repo, out, steps)
    ensures forall k :: Ran(out, k) <==> Ran(records, k) || r.kind == k
    ensures forall k :: FailedAt(out, k) <==> FailedAt(records, k) || (r.kind == k && r.error.Some?)
    ensures Errors(out) == Errors(records) + (if r.error.Some? then [r.error.value] else [])
  {
    ChainedSnoc(repo, records, r, steps);
    RanSnoc(records, r);
    ErrorsSnoc(records, r);
    records + [r]
  }

  lemma {:induction false} ChainedSnoc(repo: Repo, records: seq<Record>, r: Record, steps: Steps)
    requires Extends(repo, records, r, steps)
    ensures Chained(repo, records + [r], steps)
  {
    if |records| > 0 {
      ChainedUpToSnoc(repo, records, r, |records|, steps);
    }
    assert (records + [r])[|records|] == r;
  }

  lemma {:induction false} RanSnoc(records: seq<Record>, r: Record)
    ensures forall k :: Ran(records + [r], k) <==> Ran(records, k) || r.kind == k
    ensures forall k :: FailedAt(records + [r], k) <==> FailedAt(records, k) || (r.kind == k && r.error.Some?)
  {
    var out := records + [r];
    forall k ensures Ran(out, k) <==> Ran(records, k) || r.kind == k {
      if Ran(records, k) {
        var i :| 0 <= i < |records| && records[i].kind == k;
        assert out[i] == records[i];
      }
      if Ran(out, k) {
        var i :| 0 <= i < |out| && out[i].kind == k;
        if i < |records| {
          assert records[i] == out[i];
        }
      }
      assert out[|records|] == r;
    }
    forall k ensures FailedAt(out, k) <==> FailedAt(records, k) || (r.kind == k && r.error.Some?) {
      if FailedAt(records, k) {
        var i :| 0 <= i < |records| && records[i].kind == k && records[i].error.Some?;
        assert out[i] == records[i];
      }
      if FailedAt(out, k) {
        var i :| 0 <= i < |out| && out[i].kind == k && out[i].error.Some?;
        if i < |records| {
          assert records[i] == out[i];
        }
      }
      assert out[|records|] == r;
    }
  }

  lemma {:induction false} ErrorsSnoc(records: seq<Record>, r: Record)
    ensures Errors(records + [r]) == Errors(records) + (if r.error.Some? then [r.error.value] else [])
  {
    assert (records + [r])[..|records|] == records;
  }

  /** Records only of steps up to position `n`. */
  predicate UpTo(records: seq<Record>, n: nat)
  {
    forall i :: 0 <= i < |records| ==> Ord(records[i].kind) <= n
  }

  /** A step after position `n` has not run yet. */
  lemma {:induction false} Later(records: seq<Record>, n: nat, k: StepKind)
    requires UpTo(records, n) && Ord(k) == n + 1
    ensures UpTo(records, n + 1)
    ensures !Ran(records, k) && !FailedAt(records, k)
  {
  }

  /** Appending the step after position `n` keeps the records up to it. */
  lemma {:induction false} LaterSnoc(records: seq<Record>, r: Record, n: nat)
    requires UpTo(records, n) && Ord(r.kind) == n + 1
    ensures UpTo(records + [r], n + 1)
  {
    forall i | 0 <= i < |records| + 1 ensures Ord((records + [r])[i].kind) <= n + 1 {
      if i < |records| {
        assert (records + [r])[i] == records[i];
      }
    }
  }

  /** No step at position `n` or below ran or failed in `extra` that had not in `records`. */
  predicate SameUpTo(records: seq<Record>, extended: seq<Record>, n: nat)
  {
    forall k :: Ord(k) <= n ==> (Ran(extended, k) <==> Ran(records, k)) && (FailedAt(extended, k) <==> FailedAt(records, k))
  }

  /** Steps 1 and 2: save the original state (its failure sets `skip_all`),
      then, for staged files with changes, back up the unstaged changes (its
      failure sets `revert`). */
  method Prepare(repo: Repo, setup: Setup, steps: Steps)
    returns (records: seq<Record>, skipAll: bool, revert: bool)
    requires Shaped(steps)
    ensures Chained(repo, records, steps) && UpTo(records, 1)
    ensures skipAll <==> FailedAt(records, Preparing)
    ensures revert <==> FailedAt(records, BackingUp)
    ensures Ran(records, BackingUp) <==> !FailedAt(records, Preparing) && setup.Staged() && |setup.Changes()| > 0
    ensures skipAll ==> |records| == 1
  {
    var prep := steps(Preparing, repo);
    records := Push([], prep, repo, steps);
    assert records == [prep];
    skipAll, revert := prep.error.Some?, false;
    if !skipAll && setup.Staged() && |setup.Changes()| > 0 {
      var r := steps(BackingUp, prep.after);
      records := Push(records, r, repo, steps);
      assert records == [prep, r];
      revert := r.error.Some?;
      FirstSteps(prep, r);
    } else {
      FirstSteps(prep, prep.(kind := BackingUp));
    }
  }

  /** What the first one or two records say about the first two steps. */
  lemma {:induction false} FirstSteps(p: Record, r: Record)
    requires p.kind == Preparing && r.kind == BackingUp
    ensures UpTo([p], 1) && UpTo([p, r], 1)
    ensures FailedAt([p], Preparing) <==> p.error.Some?
    ensures !Ran([p], BackingUp) && !FailedAt([p], BackingUp)
    ensures FailedAt([p, r], Preparing) <==> p.error.Some?
    ensures Ran([p, r], BackingUp)
    ensures FailedAt([p, r], BackingUp) <==> r.error.Some?
  {
    assert [p, r][0] == p && [p, r][1] == r;
  }

  /** Step 3, only when neither flag is set: run the tasks; an aggregate
      task error sets `revert`. */
  method RunTasks(repo: Repo, setup: Setup, steps: Steps, records0: seq<Record>, skipAll: bool, revert0: bool)
    returns (records: seq<Record>, revert: bool)
    requires Shaped(steps)
    requires Chained(repo, records0, steps) && UpTo(records0, 1)
    ensures Chained(repo, records, steps) && UpTo(records, 2) && SameUpTo(records0, records, 1)
    ensures skipAll || revert0 ==> records == records0 && revert == revert0
    ensures Ran(records, RunningTasks) <==> !skipAll && !revert0
    ensures revert <==> revert0 || FailedAt(records, RunningTasks)
  {
    Later(records0, 1, RunningTasks);
    records, revert := records0, revert0;
    if !skipAll && !revert {
      var r := steps(RunningTasks, records[|records| - 1].after);
      LaterSnoc(records0, r, 1);
      records := Push(records, r, repo, steps);
      if r.error.Some? {
        revert := true;
      }
    }
  }

  /** Step 4, for staged files only and only while neither flag is set:
      stage the modifications; a failure sets `revert`. */
  method Apply(repo: Repo, setup: Setup, steps: Steps, records0: seq<Record>, skipAll: bool, revert0: bool)
    returns (records: seq<Record>, revert: bool)
    requires Shaped(steps)
    requires Chained(repo, records0, steps) && UpTo(records0, 2)
    ensures Chained(repo, records, steps) && UpTo(records, 3) && SameUpTo(records0, records, 2)
    ensures skipAll || revert0 || !setup.Staged() ==> records == records0 && revert == revert0
    ensures Ran(records, Applying) <==> !skipAll && !revert0 && setup.Staged()
    ensures revert <==> revert0 || FailedAt(records, Applying)
  {
    Later(records0, 2, Applying);
    records, revert := records0, revert0;
    if !skipAll && !revert && setup.Staged() {
      var cur := records[|records| - 1].after;
      var r := steps(Applying, cur);
      LaterSnoc(records0, r, 2);
      records := Push(records, r, repo, steps);
      if r.error.Some? {
        revert := true;
      }
    }
  }

  /** Step 5, under the same guard and only with changes: restore the
      unstaged changes. Its failure is recorded but sets no flag. */
  method RestoreUnstaged(repo: Repo, setup: Setup, steps: Steps, records0: seq<Record>, skipAll: bool, revert: bool)
    returns (records: seq<Record>)
    requires Shaped(steps)
    requires Chained(repo, records0, steps) && UpTo(records0, 3)
    ensures Chained(repo, records, steps) && UpTo(records, 4) && SameUpTo(records0, records, 3)
    ensures skipAll ==> records == records0
    ensures Ran(records, RestoringUnstaged) <==> !skipAll && !revert && setup.Staged() && |setup.Changes()| > 0
  {
    Later(records0, 3, RestoringUnstaged);
    records := records0;
    if !skipAll && !revert && setup.Staged() && |setup.Changes()| > 0 {
      var cur := records[|records| - 1].after;
      var r := steps(RestoringUnstaged, cur);
      LaterSnoc(records0, r, 3);
      records := Push(records, r, repo, steps);
    }
  }

  /** Step 6, unless `skip_all`: roll back when `revert` is set; a failed
      rollback resets `clear`. */
  method Revert(repo: Repo, setup: Setup, steps: Steps, records0: seq<Record>, skipAll: bool, revert: bool)
    returns (records: seq<Record>, clear: bool)
    requires Shaped(steps)
    requires Chained(repo, records0, steps) && UpTo(records0, 4)
    ensures Chained(repo, records, steps) && UpTo(records, 5) && SameUpTo(records0, records, 4)
    ensures skipAll ==> records == records0
    ensures Ran(records, Reverting) <==> !skipAll && revert
    ensures clear <==> !FailedAt(records, Reverting)
  {
    Later(records0, 4, Reverting);
    records, clear := records0, true;
    if !skipAll && revert {
      var cur := records[|records| - 1].after;
      var r := steps(Reverting, cur);
      LaterSnoc(records0, r, 4);
      records := Push(records, r, repo, steps);
      if r.error.Some? {
        clear := false;
      }
    }
  }

  /** Step 7, unless `skip_all`: clean up the patch files while `clear` holds. */
  method Clean(repo: Repo, setup: Setup, steps: Steps, records0: seq<Record>, skipAll: bool, clear: bool)
    returns (records: seq<Record>)
    requires Shaped(steps)
    requires Chained(repo, records0, steps) && UpTo(records0, 5)
    ensures Chained(repo, records, steps) && SameUpTo(records0, records, 5)
    ensures skipAll ==> records == records0
    ensures Ran(records, CleaningUp) <==> !skipAll && clear
  {
    Later(records0, 5, CleaningUp);
    records := records0;
    if !skipAll && clear {
      var cur := records[|records| - 1].after;
      var r := steps(CleaningUp, cur);
      records := Push(records, r, repo, steps);
    }
  }

  /** The guards of the seven steps, each read off the flags as the earlier
      steps left them, make up the schedule. */
  lemma {:induction false} PhasesScheduled(setup: Setup, r1: seq<Record>, r2: seq<Record>, r3: seq<Record>, r4: seq<Record>,
                        r5: seq<Record>, r6: seq<Record>,
                        skipAll: bool, revert1: bool, revert2: bool, revert3: bool, clear: bool)
    requires skipAll <==> FailedAt(r1, Preparing)
    requires revert1 <==> FailedAt(r1, BackingUp)
    requires Ran(r1, BackingUp) <==> !FailedAt(r1, Preparing) && setup.Staged() && |setup.Changes()| > 0
    requires SameUpTo(r1, r2, 1)
    requires Ran(r2, RunningTasks) <==> !skipAll && !revert1
    requires revert2 <==> revert1 || FailedAt(r2, RunningTasks)
    requires SameUpTo(r2, r3, 2)
    requires Ran(r3, Applying) <==> !skipAll && !revert2 && setup.Staged()
    requires revert3 <==> revert2 || FailedAt(r3, Applying)
    requires SameUpTo(r3, r4, 3)
    requires Ran(r4, RestoringUnstaged) <==> !skipAll && !revert3 && setup.Staged() && |setup.Changes()| > 0
    requires SameUpTo(r4, r5, 4)
    requires Ran(r5, Reverting) <==> !skipAll && revert3
    requires clear <==> !FailedAt(r5, Reverting)
    requires SameUpTo(r5, r6, 5)
    requires Ran(r6, CleaningUp) <==> !skipAll && clear
    ensures Scheduled(setup, r6)
  {
    assert Ord(Preparing) <= 1 && Ord(BackingUp) <= 1;
    assert Ord(RunningTasks) <= 2 && Ord(Applying) <= 3 && Ord(RestoringUnstaged) <= 4 && Ord(Reverting) <= 5;
  }

  /** `run()`: the steps in order, each run as the flags allow; it rejects
      exactly when some step recorded an error, with those errors in step
      order. A failed preparation leaves nothing else run, cleanup included. */
  method Run(git: Git, repo: Repo, setup: Setup, t: TaskOracle, steps: Steps)
    returns (records: seq<Record>, errors: seq<RunError>)
    requires IsCompletionOrder(t.order, |t.groups|) && Wired(steps, git, setup, t)
    ensures Chained(repo, records, steps)
    ensures Scheduled(setup, records)
    ensures FailedAt(records, Preparing) ==> |records| == 1
    ensures errors == Errors(records)
    ensures |errors| > 0 <==> exists i :: 0 <= i < |records| && records[i].error.Some?
  {
    var r1, skipAll, revert1 := Prepare(repo, setup, steps);
    var r2, revert2 := RunTasks(repo, setup, steps, r1, skipAll, revert1);
    var r3, revert3 := Apply(repo, setup, steps, r2, skipAll, revert2);
    var r4 := RestoreUnstaged(repo, setup, steps, r3, skipAll, revert3);
    var r5, clear := Revert(repo, setup, steps, r4, skipAll, revert3);
    records := Clean(repo, setup, steps, r5, skipAll, clear);
    PhasesScheduled(setup, r1, r2, r3, r4, r5, records, skipAll, revert1, revert2, revert3, clear);
    errors := Errors(records);
  }
}
