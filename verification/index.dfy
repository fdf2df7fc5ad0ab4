/** lib/index.js: the entry point. It merges the options over their
    defaults, finds the repository and the configuration, picks the files by
    mode, returns early when there is nothing to do, and otherwise runs the
    runner; whatever is thrown is logged and thrown again unchanged. The git
    queries, configuration loading and validation (lib/git.js and
    lib/config.js are not part of this model) are given as an `Environment`. */
module Index {
  import opened Results
  import opened Paths
  import opened Repository
  import opened TaskGeneration
  import opened Messages
  import Cli
  import Runner
  import Executor

  /** A value for `config`: undefined, a file path (a string), or any other
      value, such as a configuration object. */
  datatype ConfigArg = NoConfigArg | ConfigFile(path: string) | ConfigValue

  /** A value for `diff`: an array of refs, or anything that is not an array. */
  datatype DiffArg = NotRefs | Refs(refs: seq<string>)

  /** The options a caller passes; `None` is an absent key. */
  datatype Supplied = Supplied(allowEmpty: Option<bool>, config: Option<ConfigArg>, unstaged: Option<bool>, diff: Option<DiffArg>)

  datatype Options = Options(allowEmpty: bool, config: ConfigArg, unstaged: bool, diff: DiffArg)

  const Defaults: Options := Options(false, NoConfigArg, false, NotRefs)

  /** `{...defaults, ...options}`: a supplied key wins, an absent one keeps its default. */
  function WithDefaults(s: Supplied): (o: Options)
    ensures s == Supplied(None, None, None, None) ==> o == Defaults
    ensures s.allowEmpty.Some? ==> o.allowEmpty == s.allowEmpty.value
    ensures s.config.Some? ==> o.config == s.config.value
    ensures s.unstaged.Some? ==> o.unstaged == s.unstaged.value
    ensures s.diff.Some? ==> o.diff == s.diff.value
    ensures s.allowEmpty.None? ==> !o.allowEmpty
    ensures s.config.None? ==> o.config == NoConfigArg
    ensures s.unstaged.None? ==> !o.unstaged
    ensures s.diff.None? ==> o.diff == NotRefs
  {
    Options(s.allowEmpty.GetOr(Defaults.allowEmpty), s.config.GetOr(Defaults.config),
            s.unstaged.GetOr(Defaults.unstaged), s.diff.GetOr(Defaults.diff))
  }

  /** Which files to ask git for. */
  datatype Selection = SelectUnstaged | SelectDiff(refs: seq<string>) | SelectStaged
  {
    function Mode(): Mode
    {
      match this
      case SelectUnstaged => Unstaged
      case SelectDiff(_) => Diff
      case SelectStaged => Staged
    }
  }

  /** `unstaged` wins; then `diff`, only when it is an array (an empty one
      included); otherwise the staged files. */
  function Select(o: Options): (s: Selection)
    ensures s.Mode() == Unstaged <==> o.unstaged
    ensures s.Mode() == Diff <==> !o.unstaged && o.diff.Refs?
    ensures s.SelectDiff? ==> s.refs == o.diff.refs
  {
    if o.unstaged then SelectUnstaged
    else if o.diff.Refs? then SelectDiff(o.diff.refs)
    else SelectStaged
  }

  /** The options `bin.js` passes: only the keys it set. A config flag sets
      its key even to `undefined`, which merges like an absent key. */
  function FromCli(c: Cli.CliOptions): Supplied
  {
    Supplied(if c.allowEmpty then Some(true) else None,
             if c.config.Some? then Some(ConfigFile(c.config.value)) else None,
             if c.unstaged then Some(true) else None,
             if c.diff.Some? then Some(Refs(c.diff.value)) else None)
  }

  /** From the command line: a `-u` that is not the value of a config flag
      selects the unstaged files, `--diff` selects a diff (with the refs
      that followed it) otherwise, and the staged files are the default;
      the config is the argument after the last config flag, and undefined
      when that flag is the last argument. */
  lemma {:induction false} CommandLineSelection(argv: seq<string>)
    ensures var c := Cli.Parse(argv);
      var o := WithDefaults(FromCli(c));
      && (Select(o).Mode() == Unstaged <==> c.unstaged)
      && (Select(o).Mode() == Diff <==> !c.unstaged && c.diff.Some?)
      && (Select(o).SelectDiff? ==> Select(o).refs == c.diff.value)
      && (o.config == if c.config.Some? then ConfigFile(c.config.value) else NoConfigArg)
      && o.allowEmpty == c.allowEmpty
  {
  }

  /** The files git reports for a selection. */
  datatype FileSets = FileSets(working: seq<string>, changed: seq<string>, deleted: seq<string>)

  /** What the entry point asks of its surroundings: the repository root
      (`None` when git finds none), its git directory, the configuration
      found for a `config` value (`None` when there is none), whether a
      configuration is valid, the files of a selection, and the glob
      matcher and tokenizer task generation uses. */
  datatype Environment = Environment(
    cwd: AbsPath,
    root: Option<AbsPath>,
    dot: AbsPath,
    loadConfig: ConfigArg -> Option<seq<(string, CommandSpec)>>,
    valid: seq<(string, CommandSpec)> -> bool,
    files: Selection -> FileSets,
    glob: (string, GlobOptions, string) -> bool,
    tokenize: string -> seq<string>)

  /** The configuration failures, each a `NanoStagedError` reason. */
  datatype Reason = NoGitRepo | NoFileConfig(file: string) | NoConfig | InvalidConfig

  /** The informational events of an early return. */
  datatype Info = NoFiles(mode: Mode) | NoMatchingFiles

  /** What is thrown: one configuration failure, or the runner's error list. */
  datatype Thrown = Failure(reason: Reason) | RunnerErrors(errors: seq<Runner.RunError>)

  /** An error as it is logged. */
  datatype Logged = LoggedReason(reason: Reason) | LoggedRunError(error: Runner.RunError)

  /** `to_array(errors)`, each element as it is logged. */
  function ToArray(t: Thrown): (logged: seq<Logged>)
    ensures t.Failure? ==> logged == [LoggedReason(t.reason)]
    ensures t.RunnerErrors? ==> |logged| == |t.errors|
    ensures t.RunnerErrors? ==> forall i :: 0 <= i < |t.errors| ==> logged[i] == LoggedRunError(t.errors[i])
  {
    match t
    case Failure(r) => [LoggedReason(r)]
    case RunnerErrors(es) => seq(|es|, i requires 0 <= i < |es| => LoggedRunError(es[i]))
  }

  /** How the entry point ends: it returns, logging an info event or not, or
      it logs what was thrown and throws it again. */
  datatype Outcome = Returned(info: Option<Info>) | Rejected(thrown: Thrown, logged: seq<Logged>)

  /** The configuration that passed the checks, or the reason it did not. */
  datatype Checked = Valid(config: seq<(string, CommandSpec)>) | Invalid(reason: Reason)

  /** The configuration checks, in order: a repository root, a configuration
      (its absence reported with the file name when `config` was a string),
      and a valid one. */
  function CheckSetup(env: Environment, o: Options): (r: Checked)
    ensures env.root.None? ==> r == Invalid(NoGitRepo)
    ensures env.root.Some? && env.loadConfig(o.config).None? ==>
              r == Invalid(if o.config.ConfigFile? then NoFileConfig(o.config.path) else NoConfig)
    ensures env.root.Some? && env.loadConfig(o.config).Some? && !env.valid(env.loadConfig(o.config).value) ==>
              r == Invalid(InvalidConfig)
    ensures r.Valid? <==> env.root.Some? && env.loadConfig(o.config).Some? && env.valid(env.loadConfig(o.config).value)
    ensures r.Valid? ==> r.config == env.loadConfig(o.config).value
  {
    if env.root.None? then Invalid(NoGitRepo)
    else match env.loadConfig(o.config)
      case None => Invalid(if o.config.ConfigFile? then NoFileConfig(o.config.path) else NoConfig)
      case Some(config) => if !env.valid(config) then Invalid(InvalidConfig) else Valid(config)
  }

  /** The task-generation context once a root is known. */
  function ContextFor(env: Environment, o: Options): Context
    requires env.root.Some?
  {
    Context(env.cwd, env.root.value, Select(o).Mode(), env.glob, env.tokenize)
  }

  /** The runner's setup: the selected mode, `allowEmpty`, the git
      directory, and the files git reported for the selection. */
  function SetupFor(env: Environment, o: Options): Runner.Setup
  {
    var files := env.files(Select(o));
    Runner.Setup(Select(o).Mode(), o.allowEmpty, env.dot, files.changed, files.deleted, files.working)
  }

  /** The groups `generate_tasks` builds for a configuration that passed
      the checks: one per entry, over the selected working files. */
  function GroupsFor(env: Environment, o: Options, config: seq<(string, CommandSpec)>): seq<Group>
    requires env.root.Some?
  {
    GroupsUpTo(ContextFor(env, o), config, env.files(Select(o)).working, |config|)
  }

  predicate AnyFiles(groups: seq<Group>)
  {
    exists i :: 0 <= i < |groups| && groups[i].fileCount > 0
  }

  /** The entry point. The runner runs only past every check and with at
      least one group that matched a file; the git calls and step records
      are the runner's. A completion order for any number of groups is given. */
  method NanoStaged(env: Environment, supplied: Supplied, git: Git, repo: Repo,
                    outcome: (nat, nat) -> Executor.Settled, orderFor: nat -> seq<nat>, effect: Repo -> Repo)
    returns (result: Outcome, records: seq<Runner.Record>)
    requires forall n: nat :: IsCompletionOrder(orderFor(n), n)
    ensures var o := WithDefaults(supplied);
      var checked := CheckSetup(env, o);
      && (checked.Invalid? ==> result == Rejected(Failure(checked.reason), [LoggedReason(checked.reason)]) && records == [])
      && (checked.Valid? && |env.files(Select(o)).working| == 0 ==>
            result == Returned(Some(NoFiles(Select(o).Mode()))) && records == [])
    ensures var o := WithDefaults(supplied);
      var checked := CheckSetup(env, o);
      var working := env.files(Select(o)).working;
      checked.Valid? && |working| > 0 ==>
        (result == Returned(Some(NoMatchingFiles)) <==>
           forall i :: 0 <= i < |checked.config| ==>
             MakeGroup(ContextFor(env, o), checked.config[i].0, checked.config[i].1, working).fileCount == 0)
    ensures result.Returned? && result.info == Some(NoMatchingFiles) ==> records == []
    ensures result.Rejected? ==> result.logged == ToArray(result.thrown)
    ensures result.Rejected? && result.thrown.RunnerErrors? ==> |result.thrown.errors| > 0 && |records| > 0
    ensures |records| > 0 ==> result == Returned(None) || (result.Rejected? && result.thrown.RunnerErrors?)
    ensures result.Rejected? && result.thrown.RunnerErrors? ==> result.thrown.errors == Runner.Errors(records)
    ensures |records| > 0 ==>
              (result == Returned(None) <==> forall i :: 0 <= i < |records| ==> records[i].error.None?)
    ensures var o := WithDefaults(supplied);
      var checked := CheckSetup(env, o);
      checked.Valid? && |env.files(Select(o)).working| > 0 && AnyFiles(GroupsFor(env, o, checked.config)) ==>
        var groups := GroupsFor(env, o, checked.config);
        var setup := SetupFor(env, o);
        var tasks := Runner.TaskOracle(groups, outcome, orderFor(|groups|), effect);
        && |records| > 0
        && Runner.Chained(repo, records, Runner.StepsFor(git, setup, tasks))
        && Runner.Scheduled(setup, records)
  {
    records := [];
    var o := WithDefaults(supplied);
    var checked := CheckSetup(env, o);
    if checked.Invalid? {
      result := Rejected(Failure(checked.reason), ToArray(Failure(checked.reason)));
      return;
    }
    var selection := Select(o);
    var files := env.files(selection);
    if |files.working| == 0 {
      result := Returned(Some(NoFiles(selection.Mode())));
      return;
    }
    var ctx := ContextFor(env, o);
    var groups := GenerateTasks(ctx, checked.config, files.working);
    GroupsUpToAt(ctx, checked.config, files.working, |checked.config|);
    assert groups == GroupsFor(env, o, checked.config);
    if !AnyFiles(groups) {
      result := Returned(Some(NoMatchingFiles));
      return;
    }
    var setup := Runner.Setup(selection.Mode(), o.allowEmpty, env.dot, files.changed, files.deleted, files.working);
    result, records := RunRunner(git, repo, setup, Runner.TaskOracle(groups, outcome, orderFor(|groups|), effect));
  }

  /** `await create_runner(...).run()` inside the entry point's `try`: the
      runner's steps, and its error list logged and thrown again when it
      rejects. */
  method RunRunner(git: Git, repo: Repo, setup: Runner.Setup, tasks: Runner.TaskOracle)
    returns (result: Outcome, records: seq<Runner.Record>)
    requires IsCompletionOrder(tasks.order, |tasks.groups|)
    ensures |records| > 0
    ensures Runner.Chained(repo, records, Runner.StepsFor(git, setup, tasks))
    ensures Runner.Scheduled(setup, records)
    ensures result == Returned(None) || (result.Rejected? && result.thrown.RunnerErrors?)
    ensures result.Rejected? ==> result.logged == ToArray(result.thrown) && result.thrown.errors == Runner.Errors(records)
    ensures result.Rejected? ==> |result.thrown.errors| > 0
    ensures result == Returned(None) <==> forall i :: 0 <= i < |records| ==> records[i].error.None?
  {
    var errors;
    Runner.StepsForWired(git, setup, tasks);
    records, errors := Runner.Run(git, repo, setup, tasks, Runner.StepsFor(git, setup, tasks));
    if |errors| > 0 {
      result := Rejected(RunnerErrors(errors), ToArray(RunnerErrors(errors)));
    } else {
      result := Returned(None);
    }
  }
}
