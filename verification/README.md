# nano-staged, modelled in Dafny

nano-staged runs configured commands on the files staged in a git
repository. It can also run them on the unstaged files, or on the files
changed between two refs. For staged files, it protects the work tree
around the run:

1. It saves the original state as a patch.
2. It sets the unstaged edits of the staged files aside as a second patch.
3. It runs the commands.
4. It stages what the commands changed.
5. It reapplies the unstaged edits.
6. On failure, it rolls everything back.
7. It removes the patches.

This project models that core as pure Dafny functions and methods over
immutable data, module by module:

- **Strings**, **Paths**: the string helpers and a simplified POSIX path model.
  - A path is its list of segments below `/`.
  - `resolve`, `relative`, `normalize` and `dirname` work on segments.
  - `Paths.ResolveRelative` proves that resolving a relative path lands back on its target.
- **Executor** (`lib/executor.js`):
  - the `PATH` suffix that drops leading `node_modules/.bin` entries;
  - the ancestor walk that lists a bin directory per ancestor;
  - the shell line and the spawned environment;
  - the decision to resolve or reject when the child ends.
- **WindowsEnv** (`lib/utils/windows.js`): the lower-case casing map, and how augmentations overwrite a variable under every casing it already has. `toLowerCase` is a parameter, so every property holds whatever Unicode case mapping it applies.
- **Tasks** (`lib/task.js`): the tree of task entries.
  - A callback is a sequence of actions (`update`, nested `task`, `task.group`) followed by a normal return or a throw.
  - After a normal return, the entry is promoted from `loading` to `success` unless the callback set another state.
- **TaskGeneration** (`lib/generate-tasks.js`, and its copy `generate_cmd_tasks` in `lib/cmd-runner.js`):
  - file filtering relative to the working directory, with glob options;
  - the file-count suffix;
  - one group per configuration entry, with one sub-task per command;
  - the matched files appended to literal commands.
- **CmdRunner** (`lib/cmd-runner.js`): the sequential fail-then-skip policy of `run_task`, and the group states and aggregate error of `run`.
- **GroupRunner** (`lib/runner.js`, step 3): the same policy written a second time, through the task tree and a `skipped` flag shared by the sub-task callbacks. The two loops are proved to agree step by step: same calls, same messages, matching states.
- **Repository**, **GitWorkflow** (`lib/git-workflow.js`):
  - a repository record (HEAD, index, work tree, files on disk);
  - git as an oracle from a call and a repository to a reply;
  - the seven workflow steps, with `has_patch` as `HasPatch`.
- **Runner** (`lib/runner.js`): the step sequencing.
  - What a step does is read from a step table: for each step and starting repository, the record it leaves. `Runner.Wired` says the table is the workflow functions with the arguments `run` passes them; `Runner.StepsFor` is that table.
  - The three flags `skip_all`, `revert` and `clear` are stated as which steps ran.
  - Every step starts from the repository the previous one left.
  - The run rejects exactly when a step recorded an error.
- **Cli** (`lib/bin.js`): the argv loop, proved equal to a left fold over the arguments.
- **Index** (`lib/index.js`): the entry point.
  - Option defaults and mode choice.
  - Configuration failure reasons.
  - The early returns for no files and no matching files.
  - Log-then-rethrow.

### What stands in for the parts outside this model

These become parameters of the model:

- the exit of each command (`(group, command) -> Settled`);
- the completion order of the groups under `Promise.all`, a permutation;
- every git call (`Git`);
- the tasks' effect on the repository;
- the glob matcher and the argv tokenizer;
- `String.prototype.toLowerCase`;
- configuration loading and validation;
- the repository root;
- the file lists git reports for each selection.

### Behaviour of the code worth knowing

- **Empty patch files survive clean-up.** `clean_up` deletes a patch only when `has_patch` holds (lib/git-workflow.js:89-101), and `has_patch` is false for an empty file. So an empty patch file survives a completed run, and `GitWorkflow.CleanUp` keeps it.
- **Files whose relative path starts with `..` are skipped.** A file inside the working directory whose relative path begins with `..` (for example `..foo`) is skipped, like a file outside it. This is because the code tests `startsWith('..')`. The model keeps that test.

## Model

| member | source | states |
|---|---|---|
| Executor.FirstNonBin | lib/executor.js:8 | the index of the first `PATH` entry not ending in `node_modules/.bin`, every earlier entry ending in it; -1 exactly when every entry does |
| Executor.SuffixEntries | lib/executor.js:4-10 | the kept entries are the input from its first non-bin entry on, after only bin entries; when every entry is a bin entry only the last one is kept |
| Executor.PathEnvSuffixEntries | lib/executor.js:4-10 | splitting `PATH_ENV_SUFFIX` on the delimiter gives back exactly the kept entries |
| Executor.DirnameFixedPoint | lib/executor.js:19-20 | `dirname(p) == p` holds exactly at the root, so the ancestor walk stops there and nowhere else |
| Executor.PathEnvVar | lib/executor.js:12-27 | one bin directory for `cwd` and for each ancestor, deepest first and the root's last, then the suffix, joined by the delimiter |
| Executor.CommandLineWords | lib/executor.js:30 | when no word holds a space, the shell line splits back into the command and its arguments |
| Executor.SpawnEnv | lib/executor.js:33-37 | the spawned environment has the keys of both maps plus `PATH`; the computed `PATH` wins over both, `opts.env` over the inherited environment |
| Executor.Settle | lib/executor.js:54-67 | the promise resolves exactly on a close with status 0 and no signal; a spawn error, a signal or a non-zero status reject; either way with the captured output |
| Executor.Execute | lib/executor.js:29-69 | the spawn gets the joined command line and the working directory; its environment is the inherited one overlaid with `opts.env` and then `PATH`; `PATH` joins the bin directory of the working directory and of every ancestor, deepest first, then the suffix; the result settles as above |
| WindowsEnv.CasingsGroupNames | lib/utils/windows.js:3-16 | for any lower-case mapping, the casing map has a key exactly for each lower-case form among the variable names, listing every name with that form in order |
| WindowsEnv.WithLowerCounts | lib/utils/windows.js:5-15 | for any lower-case mapping, each name appears under its lower-case key as often as among the names and under no other key: none lost, none duplicated |
| WindowsEnv.OverlaySpec | lib/utils/windows.js:20-22 | off Windows the result has the environment's keys and the augmented names; an augmented name takes its last value, every other key keeps its own |
| WindowsEnv.AugmentAllSpec | lib/utils/windows.js:23-34 | on Windows, for any lower-case mapping, a new key appears only for a name whose lower-case form is unknown; a key written by an augmentation takes the last such value; any other key keeps its value |
| WindowsEnv.UnknownNameAdded | lib/utils/windows.js:25-27 | for any lower-case mapping, an augmentation whose lower-case name matches no variable is added under its own name with its value |
| WindowsEnv.MatchingNameSetsEveryCasing | lib/utils/windows.js:28-32 | for any lower-case mapping, an augmentation whose lower-case name matches existing variables sets every existing casing to its value and adds no new casing |
| WindowsEnv.UnnamedVariablesKept | lib/utils/windows.js:23-33 | for any lower-case mapping, a variable whose lower-case form no augmentation shares keeps its value |
| Tasks.Register | lib/task.js:19-26 | exactly one entry is appended, pending, with the title, no children and `skip` false; earlier entries are unchanged |
| Tasks.ApplyUpdate | lib/task.js:6-9 | the title changes only for a truthy title, the state only when one is given; children and `skip` are untouched |
| Tasks.Run | lib/task.js:29-42 | a throwing callback always propagates its throw; after a run that does not throw, the entry is never left `loading` |
| Tasks.RunPromotes | lib/task.js:29-42 | after a callback that returns, the entry is `success` if still `loading`, else the state the callback last set; its title is the last truthy title set; its nested tasks are appended in order, each the run of its own callback |
| Tasks.RunThrows | lib/task.js:33-41 | a throwing callback propagates the throw, and the state is not promoted: it stays `loading` or the state last set |
| Tasks.PerformKeepsSkip | lib/task.js:6-9 | nothing a callback does changes `skip` |
| Tasks.RegisterAll | lib/task.js:55 | `task.group` registers every task, as a fresh pending entry in list order, before any runs |
| Tasks.Group | lib/task.js:54-60 | `task.group` appends exactly one entry per task to the list |
| Tasks.GroupRunsAll | lib/task.js:54-60 | when no callback throws, each registered entry ends as the run of its own callback, in list order |
| Tasks.GroupStopsAtThrow | lib/task.js:54-60 | when callback `j` throws after earlier ones returned, the group throws and the entries after `j` stay as registered |
| TaskGeneration.OptionsFor | lib/generate-tasks.js:19 | extended globs always; globstar exactly when the pattern contains `/` |
| TaskGeneration.MatchedFilesAreKeptInOrder | lib/generate-tasks.js:24-34 | the matched files are, in input order, the resolved paths of exactly the inputs that pass the location test and the matcher |
| TaskGeneration.OutsideCwdSkipped | lib/generate-tasks.js:27-29 | unless the pattern starts with `../`, a file outside the working directory is never matched |
| TaskGeneration.TaskFileIsAbsolutePath | lib/generate-tasks.js:25-32 | the path pushed for a file is the file resolved against the repository root |
| Paths.ResolveRelative | lib/generate-tasks.js:25-32 | resolving the path relative to `cwd` against `cwd` gives back the original absolute path |
| TaskGeneration.CountSuffixNamesCount | lib/generate-tasks.js:38 | the suffix is `no files` exactly for zero; otherwise the count in decimal digits, then ` file` for one or ` files` |
| TaskGeneration.GenerateTasks | lib/generate-tasks.js:16-62 | one group per configuration entry, in entry order, each built from the whole file list; `generate_cmd_tasks` in `lib/cmd-runner.js` (lines 18-66) is the same loop and is covered by this definition |
| TaskGeneration.MakeGroup | lib/generate-tasks.js:36-59 | the file count is the number of matched files; there is one sub-task per command when a file matched and none otherwise |
| TaskGeneration.GroupShape | lib/generate-tasks.js:36-59 | the file count is the number of matched files; the title is the pattern, ` - ` and the file-count suffix; no files means no sub-tasks; otherwise one sub-task per command, in order, titled by the command, with the pattern and the root as working directory |
| TaskGeneration.SubTaskArguments | lib/generate-tasks.js:37-51 | a literal command runs with its own arguments followed by the matched files; a generated one gets only its own arguments and comes from the generator called with the matched files and the mode |
| CmdRunner.FirstRejected | lib/cmd-runner.js:107-125 | the position of the first command that rejects: all before it resolve |
| CmdRunner.StepsMeaning | lib/cmd-runner.js:107-125 | after any number of commands, those before the first rejection are done, it has failed and later ones are skipped; exactly the commands up to the rejection were called; its message is the only one |
| CmdRunner.RunTask | lib/cmd-runner.js:103-130 | commands run in order up to and including the first rejection and no further; commands before it are `done`, it is `fail`, later ones `warn`; the group throws exactly one message when a command failed |
| CmdRunner.GroupState | lib/cmd-runner.js:76-87 | a group ends `warn` exactly when it has no file, `fail` exactly when it has files and some command rejects, `done` exactly when it has files and every command resolves |
| CmdRunner.RunGroup | lib/cmd-runner.js:73-88 | a group without files is `warn`, leaves its commands untouched and calls nothing; otherwise its commands end as `run_task` leaves them, exactly the commands up to the first rejection are called, and it is `done`, or `fail` with that command's message |
| CmdRunner.RunGroups | lib/cmd-runner.js:72-89 | every group runs to its end and is left as `RunGroup` describes |
| CmdRunner.Run | lib/cmd-runner.js:68-101 | every group is left as `RunGroup` describes, its message included; `run` rejects exactly when some group failed, and its data is the failed commands' messages, collected in completion order and joined by blank lines |
| Messages.CollectEmpty | lib/cmd-runner.js:86-91 | the collected message list is empty exactly when every group contributed none |
| Messages.CollectLength | lib/cmd-runner.js:86-91 | the length of the collected message list is the sum of the numbers of messages the listed groups contributed |
| GroupRunner.SubTaskRunsMirrorSteps | lib/runner.js:58-83 | after any number of commands, the sub-task callbacks with their shared `skipped` flag have made the same `run()` calls, pushed the same messages and set the flag alike as the loop of `run_task` in `lib/cmd-runner.js` (lines 107-125), and each callback shows the state that loop gives the command |
| GroupRunner.SubTaskRunsMeaning | lib/runner.js:58-83 | `sub_task.run()` is awaited for the commands up to and including the first rejection and never for a later one; each callback shows the state of its position relative to that rejection; the only message is that command's |
| GroupRunner.SubTaskErrorsIffRejected | lib/runner.js:63-89 | the sub-tasks push a message exactly when some command rejects, and at most one |
| GroupRunner.SubTaskEntry | lib/runner.js:62-84 | a command before the first rejection ends `success`, the first rejection ends `error`, every later one `warning`; no sub-task callback throws |
| GroupRunner.GroupEntry | lib/runner.js:52-96 | a group without files is `warning` with no children; otherwise `error` exactly when a command rejected, else `success`, with one child per command in its state |
| GroupRunner.GroupFailsWithOneMessage | lib/runner.js:57-94 | a group shows `error` exactly when it contributes a message, and it contributes at most one |
| GroupRunner.StepEntry | lib/runner.js:46-112 | the running step ends `error` exactly when some group failed, with one child per group in order |
| GroupRunner.StepFailsIffSomeGroupFails | lib/runner.js:100-106 | the step records an error exactly when some group's entry ends `error` |
| GroupRunner.AgreesWithCmdRunner | lib/runner.js:52-96 | the task tree's group and command states are the same as those of `lib/cmd-runner.js` `run` and `run_task`; the same commands have `run()` called; a group collects the same messages |
| GroupRunner.StepResultAgrees | lib/runner.js:100-106 | the running step's aggregate error carries the same messages, in the same completion order, as the rejection of `lib/cmd-runner.js` `run` |
| GitWorkflow.PatchPaths | lib/git-workflow.js:9-12 | the two patch paths are `nano-staged_partial.patch` and `nano-staged.patch` inside the git directory, and they differ |
| GitWorkflow.ResolveInDirectory | lib/git-workflow.js:10-11 | resolving `./name` against a directory gives the name inside that directory |
| GitWorkflow.HasPatch | lib/git-workflow.js:15-28 | a patch is present exactly for a non-empty path naming a file with non-empty content; a file that cannot be read counts as none |
| GitWorkflow.BackupOriginalState | lib/git-workflow.js:30-36 | writes the whole diff to the original patch and fails exactly when that diff fails |
| GitWorkflow.BackupUnstagedFiles | lib/git-workflow.js:38-47 | does nothing for no files; otherwise writes the unstaged patch first and checks the files out only when that succeeded; succeeds exactly when both did |
| GitWorkflow.ApplyModifications | lib/git-workflow.js:49-61 | fails with `empty-git-commit` exactly when `diff HEAD` is empty and empty commits are not allowed; the files are staged exactly when the diff is non-empty or empty commits are allowed; succeeds exactly when there are no files, or the diff succeeded, passed the guard and `add` succeeded; a failed diff passes its git error through |
| GitWorkflow.RestoreUnstagedFiles | lib/git-workflow.js:63-75 | the 3-way apply is tried exactly when the direct apply fails; `merge-conflict` exactly when both fail, leaving the repository as it was |
| GitWorkflow.RestoreOriginalState | lib/git-workflow.js:77-87 | always checks out `.` first; applies the original patch exactly when the checkout succeeded and the patch is present; never a 3-way apply; fails exactly when the checkout fails or the apply it makes fails |
| GitWorkflow.CleanUp | lib/git-workflow.js:89-101 | never fails and leaves the git trees alone; removes exactly the patch files that `has_patch` accepts, so empty ones stay; afterwards neither patch is present |
| Runner.Errors | lib/runner.js:163-165 | the collected errors, in step order, are empty exactly when no step recorded one |
| Runner.Prepare | lib/runner.js:23-43 | `skip_all` is set exactly when the original backup fails; the unstaged backup runs exactly when that succeeded, the mode is staged and there are changes; its failure sets `revert` |
| Runner.RunTasks | lib/runner.js:45-113 | the tasks run exactly when neither `skip_all` nor `revert` is set; their failure sets `revert` |
| Runner.Apply | lib/runner.js:115-125 | modifications are applied exactly when neither `skip_all` nor `revert` is set and the mode is staged; a failed apply sets `revert`; earlier steps' records are unchanged |
| Runner.RestoreUnstaged | lib/runner.js:127-136 | unstaged changes are restored exactly under the apply guard with `revert` still clear and with changes; a failure is recorded but sets no flag |
| Runner.Revert | lib/runner.js:138-148 | rollback runs exactly when `revert` is set and `skip_all` is not; `clear` is reset exactly when the rollback failed |
| Runner.Clean | lib/runner.js:150-159 | clean-up runs exactly when `skip_all` is not set and `clear` holds |
| Runner.PhasesScheduled | lib/runner.js:33-150 | reading each guard off the flags the earlier steps left gives the schedule: which steps ran, stated only in terms of which earlier steps ran and failed |
| Runner.StepsForWired | lib/runner.js:23-159 | the step table `run` uses records, for each step, what its workflow function of `lib/git-workflow.js` does from the repository it starts from; the running step records the tasks |
| Runner.ChainedInOrder | lib/runner.js:17-159 | in any run, every step appears at most once and the steps appear in the order of `run` |
| Runner.Run | lib/runner.js:17-166 | the steps run in order, each from the repository the last left and each as the step table says; each step runs exactly when the earlier failures allow it; a failed preparation runs nothing else; `run` rejects exactly when some step recorded an error, with those errors in step order |
| Cli.ParseArgv | lib/bin.js:14-34 | the index loop, config flags consuming the next argument, computes the left fold of the arguments from index 2 |
| Cli.ConfigTakesNext | lib/bin.js:20-21 | a config flag takes the next argument, whatever it is, as the config; as the last argument it leaves `config` undefined |
| Cli.FlagsStick | lib/bin.js:22-25 | once `-u` or `--allow-empty` has been seen, the flag stays set whatever follows |
| Cli.DiffTakesTwo | lib/bin.js:26-29 | `--diff` starts a fresh list, discarding earlier refs, and keeps the first two plain arguments after it |
| Cli.FeedPlain | lib/bin.js:28-29 | plain arguments after `--diff` are appended until two are held; later ones are ignored |
| Cli.PlainIgnoredWithoutDiff | lib/bin.js:28-29 | without a prior `--diff`, plain arguments change nothing |
| Cli.DiffHoldsAtMostTwo | lib/bin.js:26-29 | the diff list never holds more than two refs |
| Index.WithDefaults | lib/index.js:10-18 | per key, a supplied option wins over its default and an absent one keeps it: `allowEmpty` false, no config, `unstaged` false, `diff` not an array |
| Index.Select | lib/index.js:44-54 | unstaged mode exactly when `unstaged` is set; diff mode exactly when it is not and `diff` is an array (an empty one included); staged mode otherwise |
| Index.CommandLineSelection | lib/index.js:44-54 | for the options parsed from a command line, a `-u` that is not the value of a config flag selects unstaged, `--diff` selects diff with the refs that followed it, and the config is the argument after the last config flag, undefined when that flag is the last argument |
| Index.CheckSetup | lib/index.js:24-42 | no repository root fails with `no-git-repo`; a missing configuration with `no-file-config` naming the file when `config` was a string, else `no-config`; an invalid one with `invalid-config`; it passes only when all three hold |
| Index.ToArray | lib/index.js:75-86 | a single failure is logged as one error; the runner's list is logged element by element, in order |
| Index.NanoStaged | lib/index.js:9-87 | a failed check is logged and thrown before anything runs; no working files returns with `no-files` for the mode and no run; `no-matching-files` exactly when no group matched a file, without a run; otherwise the runner runs, with the selected mode, files and `allowEmpty` and the generated groups, its steps chained and scheduled as `Runner.Run` describes, and the call rejects with its errors, logged unchanged, exactly when a step recorded one |
| Index.RunRunner | lib/index.js:74-86 | the runner's steps are chained through the step table and scheduled by its flags; a rejection is its non-empty error list, logged element by element and thrown again; it returns normally exactly when no step recorded an error |

## Left out

- Terminal output is not modelled: `lib/renderer.js`, `lib/logger.js`, spinners, timers and the CI/TTY switch. The colour wrappers of `picocolors` are the identity on strings.
- `lib/git.js`, `lib/config.js`, `lib/glob-to-regex.js` and `lib/error.js` are not part of this model, nor is `lib/utils.js` beyond `to_array`, which is `Index.ToArray`. Git calls, configuration loading and validation, the glob matcher and the argv tokenizer are oracles or parameters.
- A failed git call is taken to change nothing, because git's own behaviour is outside the model.
- `git.diff(patch.original)` is modelled as a diff with an empty file list.
- A failure of `fs.unlinkSync` is not modelled, so `GitWorkflow.CleanUp` never fails.
- Processes are not spawned. A child's end is given as a `ChildEvent`, and what it printed as the captured string.
- The interleaving of `Promise.all` across groups is not modelled. Groups are independent, and only the order in which their messages are collected is a parameter.
- The tasks step records no git call. Its effect on the repository is a parameter, because the configured commands are arbitrary programs.
- Node's `path` module is simplified to POSIX paths as segment lists. Backslash replacement is modelled on the rendered string only.
- `Paths.ResolveRelative`: within Node path semantics, it holds only for normalised absolute paths.
- The `parent` back-pointers that `run` and `run_task` set (lib/cmd-runner.js:74, 108) are not modelled. The nesting of reports stands in for them.
- The state `run` that `lib/cmd-runner.js` sets while a command is in flight is not modelled. Only final states are.
- The `SIGINT` handler, `FORCE_COLOR` and `process.exitCode` in `lib/bin.js` are not modelled. They are process-level effects.
- The `stream` and `cwd` options of `lib/index.js` are not modelled as options. `cwd` is part of the environment parameter.
- The module-level renderer singleton in `lib/task.js` is not modelled. `task.stop` has no effect.
- `Index.WithDefaults`: a `config` key set to `undefined` is treated as absent. Both merge to `undefined`.
- `Index.NanoStaged`: the non-`NanoStagedError` branch of the logger (the "Unexpected error" lines) is not modelled. The model assumes every thrown value is either a failure reason or a runner error.
- `Index.NanoStaged`: a git query or configuration load that throws (`git.paths`, the file lists, `get_config`) is not modelled. The environment answers every query, so such a throw never reaches the log-and-rethrow path.
- `TaskGeneration.GenerateTasks`: a command generator that throws or rejects (lib/generate-tasks.js:37) is not modelled. A generator is a total function from the matched files and the mode to commands.
