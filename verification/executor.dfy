/** lib/executor.js: the `PATH` a task runs with, the shell command line, the
    spawned environment, and how the child's exit settles the promise. The
    process itself is not run: its end is given as a `ChildEvent` and what it
    printed as the `replay` string. */
module Executor {
  import opened Strings
  import opened Paths
  import opened Results

  /** `path.join('node_modules', '.bin')` on POSIX. */
  const NodeModulesBin: string := "node_modules/.bin"

  /** `path.delimiter` on POSIX. */
  const Delimiter: char := ':'

  predicate IsBinEntry(entry: string)
  {
    EndsWith(entry, NodeModulesBin)
  }

  /** `entries.findIndex(e => !e.endsWith(NodeModulesBin))`, -1 when none. */
  function FirstNonBin(entries: seq<string>): (k: int)
    ensures -1 <= k < |entries|
    ensures k == -1 ==> forall i :: 0 <= i < |entries| ==> IsBinEntry(entries[i])
    ensures k >= 0 ==> !IsBinEntry(entries[k]) && forall i :: 0 <= i < k ==> IsBinEntry(entries[i])
  {
    if |entries| == 0 then -1
    else if !IsBinEntry(entries[0]) then 0
    else
      var k := FirstNonBin(entries[1..]);
      if k == -1 then -1 else k + 1
  }

  /** `Array.prototype.slice(start)`: a negative start counts from the end. */
  function Slice<T>(s: seq<T>, start: int): seq<T>
  {
    if start < 0 then (if |s| + start < 0 then s else s[|s| + start..])
    else if start > |s| then [] else s[start..]
  }

  /** The entries of `PATH_ENV_SUFFIX`: the inherited `PATH` minus its leading
      run of `node_modules/.bin` entries; when every entry is one, `findIndex`
      yields -1 and `slice(-1)` keeps only the last. */
  function SuffixEntries(entries: seq<string>): (r: seq<string>)
    requires |entries| >= 1
    ensures (exists i :: 0 <= i < |entries| && !IsBinEntry(entries[i])) ==>
              exists k :: 0 <= k < |entries| && r == entries[k..] && !IsBinEntry(entries[k])
                && forall i :: 0 <= i < k ==> IsBinEntry(entries[i])
    ensures (forall i :: 0 <= i < |entries| ==> IsBinEntry(entries[i])) ==>
              r == [entries[|entries| - 1]]
  {
    var k := FirstNonBin(entries);
    if k == -1 then
      assert entries[|entries| - 1..] == [entries[|entries| - 1]];
      Slice(entries, k)
    else
      Slice(entries, k)
  }

  /** `PATH_ENV_SUFFIX`, computed from the inherited `PATH` (`''` when unset). */
  function PathEnvSuffix(inherited: Option<string>): string
  {
    Join(SuffixEntries(Split(inherited.GetOr(""), Delimiter)), [Delimiter])
  }

  /** The suffix, split again on the delimiter, is exactly the kept entries. */
  lemma {:induction false} PathEnvSuffixEntries(inherited: Option<string>)
    ensures Split(PathEnvSuffix(inherited), Delimiter)
            == SuffixEntries(Split(inherited.GetOr(""), Delimiter))
  {
    var entries := Split(inherited.GetOr(""), Delimiter);
    var r := SuffixEntries(entries);
    var k := FirstNonBin(entries);
    assert forall i :: 0 <= i < |r| ==> Delimiter !in r[i] by {
      forall i | 0 <= i < |r| ensures Delimiter !in r[i] {
        if k == -1 {
          assert r[i] == entries[|entries| - 1];
        } else {
          assert r[i] == entries[k + i];
        }
      }
    }
    SplitJoin(r, Delimiter);
  }

  /** `path.join(dir, 'node_modules', '.bin')`. */
  function BinDir(dir: AbsPath): string
  {
    Render(dir + ["node_modules", ".bin"])
  }

  /** The `i`-th directory of the walk from `cwd` to the root: `cwd` itself at 0. */
  function Ancestor(cwd: AbsPath, i: nat): AbsPath
    requires i <= |cwd|
  {
    cwd[..|cwd| - i]
  }

  /** `dirname` has exactly one fixed point, the root. */
  lemma {:induction false} DirnameFixedPoint(p: AbsPath)
    ensures Dirname(p) == p <==> |p| == 0
  {
    if |p| > 0 {
      assert |Dirname(p)| != |p|;
    }
  }

  /** `path_env_var(cwd)`: a bin directory for `cwd` and every ancestor,
      deepest first, stopping when `dirname` reaches its fixed point, then
      the inherited suffix. */
  method PathEnvVar(cwd: AbsPath, suffix: string) returns (entries: seq<string>, value: string)
    ensures |entries| == |cwd| + 2
    ensures forall i :: 0 <= i <= |cwd| ==> entries[i] == BinDir(Ancestor(cwd, i))
    ensures entries[|cwd|] == BinDir([])
    ensures entries[|cwd| + 1] == suffix
    ensures value == Join(entries, [Delimiter])
  {
    entries := [];
    var cur := cwd;
    while true
      invariant |cur| <= |cwd| && cur == cwd[..|cur|]
      invariant |entries| == |cwd| - |cur|
      invariant forall i :: 0 <= i < |entries| ==> entries[i] == BinDir(Ancestor(cwd, i))
      decreases |cur|
    {
      entries := entries + [BinDir(cur)];
      var parent := Dirname(cur);
      if parent == cur {
        DirnameFixedPoint(cur);
        break;
      }
      cur := parent;
    }
    entries := entries + [suffix];
    value := Join(entries, [Delimiter]);
  }

  /** `[command, ...args].join(' ')`, the line handed to the shell. */
  function CommandLine(command: string, args: seq<string>): (line: string)
    ensures |args| == 0 ==> line == command
  {
    Join([command] + args, " ")
  }

  /** When no word holds a space, the shell line splits back into the words. */
  lemma {:induction false} CommandLineWords(command: string, args: seq<string>)
    requires ' ' !in command
    requires forall i :: 0 <= i < |args| ==> ' ' !in args[i]
    ensures Split(CommandLine(command, args), ' ') == [command] + args
  {
    SplitJoin([command] + args, ' ');
  }

  /** `{...process.env, ...opts.env, PATH}`: the computed `PATH` wins over
      both, `opts.env` wins over the inherited environment. */
  function SpawnEnv(inherited: map<string, string>, overrides: map<string, string>, path: string): (env: map<string, string>)
    ensures env.Keys == inherited.Keys + overrides.Keys + {"PATH"}
    ensures env["PATH"] == path
    ensures forall k :: k in overrides && k != "PATH" ==> env[k] == overrides[k]
    ensures forall k :: k in inherited && k !in overrides && k != "PATH" ==> env[k] == inherited[k]
  {
    inherited + overrides + map["PATH" := path]
  }

  /** How the child ended: a spawn error, or `close` with its status and signal. */
  datatype ChildEvent = SpawnError | Closed(status: Option<int>, signal: Option<string>)

  datatype Settled = Resolved(output: string) | Rejected(output: string)

  /** The promise resolves with the captured output only on a clean exit (no
      signal, status 0); every other end rejects with what was captured. */
  function Settle(event: ChildEvent, replay: string): (r: Settled)
    ensures r.output == replay
    ensures r.Resolved? <==> event == Closed(Some(0), None)
  {
    match event
    case SpawnError => Rejected(replay)
    case Closed(status, signal) =>
      if signal != None then Rejected(replay)
      else if status != Some(0) then Rejected(replay)
      else Resolved(replay)
  }

  /** What `spawn` is called with: the shell line, the working directory and the environment. */
  datatype Spawn = Spawn(line: string, cwd: string, env: map<string, string>)

  /** `executor(command, args, {cwd})` with the child's end and output
      given. `path` is the list of `PATH` entries the child gets. */
  method Execute(command: string, args: seq<string>, cwd: AbsPath,
                 inherited: map<string, string>, overrides: map<string, string>,
                 inheritedPath: Option<string>, event: ChildEvent, replay: string)
    returns (spawn: Spawn, path: seq<string>, result: Settled)
    ensures spawn.line == CommandLine(command, args)
    ensures spawn.cwd == Render(cwd)
    ensures |path| == |cwd| + 2
    ensures forall i :: 0 <= i <= |cwd| ==> path[i] == BinDir(Ancestor(cwd, i))
    ensures path[|cwd| + 1] == PathEnvSuffix(inheritedPath)
    ensures spawn.env == SpawnEnv(inherited, overrides, Join(path, [Delimiter]))
    ensures StartsWith(spawn.env["PATH"], BinDir(cwd) + [Delimiter])
    ensures EndsWith(spawn.env["PATH"], [Delimiter] + PathEnvSuffix(inheritedPath))
    ensures result.output == replay
    ensures result.Resolved? <==> event == Closed(Some(0), None)
  {
    var value;
    path, value := PathEnvVar(cwd, PathEnvSuffix(inheritedPath));
    assert Ancestor(cwd, 0) == cwd;
    JoinEnds(path, [Delimiter]);
    spawn := Spawn(CommandLine(command, args), Render(cwd), SpawnEnv(inherited, overrides, value));
    result := Settle(event, replay);
  }
}
