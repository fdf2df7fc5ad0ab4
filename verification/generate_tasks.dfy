/** lib/generate-tasks.js: turning the configuration and the selected files
    into one task group per pattern. The glob compiler and the argv tokenizer
    live in files that are not part of this model and are parameters here. */
module TaskGeneration {
  import opened Strings
  import opened Paths
  import opened Results

  /** The file-selection mode, `type` in the source. */
  datatype Mode = Staged | Unstaged | Diff

  /** The options `glob_to_regex` is called with. */
  datatype GlobOptions = GlobOptions(extended: bool, globstar: bool)

  /** What a pattern maps to: a command or list of commands (`to_array`
      already applied), or a function from `{filenames, type}` to commands. */
  datatype CommandSpec =
    | Literal(commands: seq<string>)
    | Generated(generator: (seq<string>, Mode) -> seq<string>)
  {
    predicate IsFn()
    {
      Generated?
    }
  }

  /** Everything `generate_tasks` reads besides the configuration and files:
      `cwd`, `rootPath`, `type`, the regex test of `glob_to_regex(pattern,
      options)` on a path, and `str_argv_to_array`. */
  datatype Context = Context(
    cwd: AbsPath,
    root: AbsPath,
    mode: Mode,
    glob: (string, GlobOptions, string) -> bool,
    tokenize: string -> seq<string>)

  /** One command of a group: `title` is the command as configured, and
      `command`/`args`/`cwd` are what its `run` hands to the executor. */
  datatype SubTask = SubTask(title: string, pattern: string, command: string, args: seq<string>, cwd: AbsPath)

  datatype Group = Group(title: string, fileCount: nat, tasks: seq<SubTask>)

  /** Globstar is on exactly when the pattern names a directory. */
  function OptionsFor(pattern: string): (o: GlobOptions)
    ensures o.extended
    ensures o.globstar <==> '/' in pattern
  {
    GlobOptions(true, '/' in pattern)
  }

  function ReplaceBackslashes(s: string): (r: string)
    ensures |r| == |s|
    ensures forall i :: 0 <= i < |s| ==> r[i] == (if s[i] == '\\' then '/' else s[i])
  {
    seq(|s|, i requires 0 <= i < |s| => if s[i] == '\\' then '/' else s[i])
  }

  /** The path a file is matched as: resolved against the repository root,
      made relative to `cwd`, with backslashes turned into slashes. */
  function MatchPath(ctx: Context, file: string): string
  {
    ReplaceBackslashes(Relative(ctx.cwd, Resolve(ctx.root, file)))
  }

  /** A file outside `cwd` is skipped unless the pattern itself climbs out. */
  predicate Skipped(pattern: string, path: string)
  {
    !StartsWith(pattern, "../") && (StartsWith(path, "..") || IsAbsolute(path))
  }

  predicate Keeps(ctx: Context, pattern: string, file: string)
  {
    var path := MatchPath(ctx, file);
    !Skipped(pattern, path) && ctx.glob(pattern, OptionsFor(pattern), path)
  }

  /** The file as pushed onto `task_files`: `resolve(cwd, path)`. */
  function TaskFile(ctx: Context, file: string): string
  {
    Render(Resolve(ctx.cwd, MatchPath(ctx, file)))
  }

  /** `task_files`: the kept files, absolute again, in input order. */
  function MatchedFiles(ctx: Context, pattern: string, files: seq<string>): seq<string>
  {
    if |files| == 0 then []
    else
      var last := files[|files| - 1];
      MatchedFiles(ctx, pattern, files[..|files| - 1])
        + (if Keeps(ctx, pattern, last) then [TaskFile(ctx, last)] else [])
  }

  /** The positions, in order, of the elements `keep` accepts. */
  function Positions<T>(keep: T -> bool, s: seq<T>): seq<nat>
  {
    if |s| == 0 then []
    else Positions(keep, s[..|s| - 1]) + (if keep(s[|s| - 1]) then [|s| - 1] else [])
  }

  /** The positions of the kept files. */
  function KeptIndices(ctx: Context, pattern: string, files: seq<string>): seq<nat>
  {
    Positions(file => Keeps(ctx, pattern, file), files)
  }

  predicate StrictlyIncreasing(s: seq<nat>)
  {
    forall a, b :: 0 <= a < b < |s| ==> s[a] < s[b]
  }

  /** The positions are increasing and in range. */
  lemma {:induction false} PositionsOrdered<T>(keep: T -> bool, s: seq<T>)
    ensures var idx := Positions(keep, s);
      && StrictlyIncreasing(idx)
      && (forall k :: 0 <= k < |idx| ==> idx[k] < |s|)
    decreases |s|
  {
    if |s| > 0 {
      PositionsOrdered(keep, s[..|s| - 1]);
    }
  }

  /** The positions are exactly those of the accepted elements. */
  lemma {:induction false} PositionsExact<T>(keep: T -> bool, s: seq<T>)
    ensures forall i :: 0 <= i < |s| ==> (keep(s[i]) <==> i in Positions(keep, s))
    decreases |s|
  {
    if |s| > 0 {
      var init := s[..|s| - 1];
      PositionsExact(keep, init);
      PositionsOrdered(keep, init);
      var idx0 := Positions(keep, init);
      assert |s| - 1 !in idx0;
      forall i | 0 <= i < |init| ensures keep(s[i]) <==> i in Positions(keep, s) {
        assert s[i] == init[i];
      }
    }
  }

  /** The matched files are the kept inputs, taken at the kept positions. */
  lemma {:induction false} MatchedFilesAtKept(ctx: Context, pattern: string, files: seq<string>)
    ensures var idx := KeptIndices(ctx, pattern, files);
      && (forall k :: 0 <= k < |idx| ==> idx[k] < |files|)
      && |MatchedFiles(ctx, pattern, files)| == |idx|
      && (forall k :: 0 <= k < |idx| ==> MatchedFiles(ctx, pattern, files)[k] == TaskFile(ctx, files[idx[k]]))
    decreases |files|
  {
    if |files| > 0 {
      var init := files[..|files| - 1];
      MatchedFilesAtKept(ctx, pattern, init);
      var idx := KeptIndices(ctx, pattern, files);
      var idx0 := KeptIndices(ctx, pattern, init);
      forall k | 0 <= k < |idx| ensures MatchedFiles(ctx, pattern, files)[k] == TaskFile(ctx, files[idx[k]]) {
        if k < |idx0| {
          assert files[idx0[k]] == init[idx0[k]];
        }
      }
    }
  }

  /** The matched files are exactly the kept ones, each once, in input order. */
  lemma {:induction false} MatchedFilesAreKeptInOrder(ctx: Context, pattern: string, files: seq<string>)
    ensures var idx := KeptIndices(ctx, pattern, files);
      && StrictlyIncreasing(idx)
      && (forall k :: 0 <= k < |idx| ==> idx[k] < |files|)
      && (forall i :: 0 <= i < |files| ==> (Keeps(ctx, pattern, files[i]) <==> i in idx))
      && |MatchedFiles(ctx, pattern, files)| == |idx|
      && (forall k :: 0 <= k < |idx| ==> MatchedFiles(ctx, pattern, files)[k] == TaskFile(ctx, files[idx[k]]))
  {
    PositionsOrdered(file => Keeps(ctx, pattern, file), files);
    PositionsExact(file => Keeps(ctx, pattern, file), files);
    MatchedFilesAtKept(ctx, pattern, files);
  }

  /** "no files", "1 file" or "N files". */
  function CountSuffix(n: nat): string
  {
    if n == 0 then "no files" else NatToString(n) + (if n > 1 then " files" else " file")
  }

  /** The suffix names the count: its leading digits read back as the count,
      and the noun is singular exactly for one file. */
  lemma {:induction false} CountSuffixNamesCount(n: nat)
    ensures n == 0 <==> CountSuffix(n) == "no files"
    ensures n > 0 ==>
              exists digits ::
                && |digits| > 0
                && (forall i :: 0 <= i < |digits| ==> IsDigit(digits[i]))
                && ParseDigits(digits) == n
                && CountSuffix(n) == digits + (if n == 1 then " file" else " files")
  {
    if n > 0 {
      ParseNatToString(n);
      NatToStringDigits(n);
      var d := NatToString(n);
      assert CountSuffix(n)[0] == d[0];
      assert IsDigit(CountSuffix(n)[0]);
    }
  }

  /** The commands of a pattern; a function is called with the matched files
      and the mode even when nothing matched. */
  function Commands(ctx: Context, spec: CommandSpec, matched: seq<string>): seq<string>
  {
    match spec
    case Literal(cs) => cs
    case Generated(g) => g(matched, ctx.mode)
  }

  /** `[cmd, ...args] = str_argv_to_array(command)`; an empty token list
      leaves `cmd` undefined, which `join(' ')` prints as "". */
  function Head(tokens: seq<string>): string
  {
    if |tokens| == 0 then "" else tokens[0]
  }

  function Tail(tokens: seq<string>): seq<string>
  {
    if |tokens| == 0 then [] else tokens[1..]
  }

  function MakeSubTask(ctx: Context, pattern: string, spec: CommandSpec, matched: seq<string>, command: string): SubTask
  {
    var tokens := ctx.tokenize(command);
    SubTask(command, pattern, Head(tokens),
            if spec.IsFn() then Tail(tokens) else Tail(tokens) + matched,
            ctx.root)
  }

  /** One iteration of the loop over the configuration. */
  function MakeGroup(ctx: Context, pattern: string, spec: CommandSpec, files: seq<string>): (g: Group)
    ensures g.fileCount == |MatchedFiles(ctx, pattern, files)|
    ensures |g.tasks| == (if g.fileCount > 0 then |Commands(ctx, spec, MatchedFiles(ctx, pattern, files))| else 0)
  {
    var matched := MatchedFiles(ctx, pattern, files);
    var n := |matched|;
    var commands := Commands(ctx, spec, matched);
    Group(pattern + " - " + CountSuffix(n), n,
          if n > 0 then seq(|commands|, i requires 0 <= i < |commands| => MakeSubTask(ctx, pattern, spec, matched, commands[i]))
          else [])
  }

  /** The loop over the files of one pattern. */
  method MatchFiles(ctx: Context, pattern: string, files: seq<string>) returns (matched: seq<string>)
    ensures matched == MatchedFiles(ctx, pattern, files)
  {
    matched := [];
    var k := 0;
    while k < |files|
      invariant k <= |files|
      invariant matched == MatchedFiles(ctx, pattern, files[..k])
    {
      assert files[..k + 1][..k] == files[..k];
      if Keeps(ctx, pattern, files[k]) {
        matched := matched + [TaskFile(ctx, files[k])];
      }
      k := k + 1;
    }
    assert files[..|files|] == files;
  }

  /** The loop over the commands of one pattern: a sub-task per command, but
      only when some file matched. */
  method MakeSubTasks(ctx: Context, pattern: string, spec: CommandSpec, matched: seq<string>, commands: seq<string>)
    returns (tasks: seq<SubTask>)
    ensures |matched| == 0 ==> tasks == []
    ensures |matched| > 0 ==> |tasks| == |commands|
    ensures |matched| > 0 ==> forall j :: 0 <= j < |commands| ==> tasks[j] == MakeSubTask(ctx, pattern, spec, matched, commands[j])
  {
    tasks := [];
    var c := 0;
    while c < |commands|
      invariant c <= |commands|
      invariant |matched| == 0 ==> tasks == []
      invariant |matched| > 0 ==> |tasks| == c
      invariant |matched| > 0 ==> forall j :: 0 <= j < c ==> tasks[j] == MakeSubTask(ctx, pattern, spec, matched, commands[j])
    {
      if |matched| > 0 {
        tasks := tasks + [MakeSubTask(ctx, pattern, spec, matched, commands[c])];
      }
      c := c + 1;
    }
  }

  /** One pass of the outer loop of `generate_tasks`: the group of one entry. */
  method GenerateGroup(ctx: Context, pattern: string, spec: CommandSpec, files: seq<string>)
    returns (g: Group)
    ensures g == MakeGroup(ctx, pattern, spec, files)
  {
    var matched := MatchFiles(ctx, pattern, files);
    var commands := Commands(ctx, spec, matched);
    var tasks := MakeSubTasks(ctx, pattern, spec, matched, commands);
    g := Group(pattern + " - " + CountSuffix(|matched|), |matched|, tasks);
    if |matched| > 0 {
      assert tasks == seq(|commands|, i requires 0 <= i < |commands| => MakeSubTask(ctx, pattern, spec, matched, commands[i]));
    }
  }

  /** `f` applied to the first `n` elements of `s`, in order. */
  function MapPrefix<A, B>(f: A -> B, s: seq<A>, n: nat): seq<B>
    requires n <= |s|
  {
    if n == 0 then [] else MapPrefix(f, s, n - 1) + [f(s[n - 1])]
  }

  /** Element `j` of the mapped prefix is `f` of element `j`. */
  lemma {:induction false} MapPrefixAt<A, B>(f: A -> B, s: seq<A>, n: nat)
    requires n <= |s|
    ensures |MapPrefix(f, s, n)| == n
    ensures forall j :: 0 <= j < n ==> MapPrefix(f, s, n)[j] == f(s[j])
  {
    if n > 0 {
      MapPrefixAt(f, s, n - 1);
      var prev := MapPrefix(f, s, n - 1);
      assert MapPrefix(f, s, n) == prev + [f(s[n - 1])];
      forall j | 0 <= j < n - 1 ensures MapPrefix(f, s, n)[j] == f(s[j]) {
        assert (prev + [f(s[n - 1])])[j] == prev[j];
      }
    }
  }

  /** The groups of the first `n` configuration entries. */
  function GroupsUpTo(ctx: Context, config: seq<(string, CommandSpec)>, files: seq<string>, n: nat): seq<Group>
    requires n <= |config|
  {
    MapPrefix((entry: (string, CommandSpec)) => MakeGroup(ctx, entry.0, entry.1, files), config, n)
  }

  /** Entry `j` of the first `n` groups is the group of configuration entry `j`. */
  lemma {:induction false} GroupsUpToAt(ctx: Context, config: seq<(string, CommandSpec)>, files: seq<string>, n: nat)
    requires n <= |config|
    ensures |GroupsUpTo(ctx, config, files, n)| == n
    ensures forall j :: 0 <= j < n ==> GroupsUpTo(ctx, config, files, n)[j] == MakeGroup(ctx, config[j].0, config[j].1, files)
  {
    MapPrefixAt((entry: (string, CommandSpec)) => MakeGroup(ctx, entry.0, entry.1, files), config, n);
  }

  /** One more pass of the loop adds the next entry's group. */
  lemma {:induction false} GroupsUpToSnoc(ctx: Context, config: seq<(string, CommandSpec)>, files: seq<string>, i: nat, groups: seq<Group>, g: Group)
    requires i < |config| && groups == GroupsUpTo(ctx, config, files, i)
    requires g == MakeGroup(ctx, config[i].0, config[i].1, files)
    ensures groups + [g] == GroupsUpTo(ctx, config, files, i + 1)
  {
  }

  /** The loop of `generate_tasks` over the configuration entries. */
  method CollectGroups(ctx: Context, config: seq<(string, CommandSpec)>, files: seq<string>)
    returns (groups: seq<Group>)
    ensures groups == GroupsUpTo(ctx, config, files, |config|)
  {
    groups := [];
    var i := 0;
    while i < |config|
      invariant i <= |config|
      invariant groups == GroupsUpTo(ctx, config, files, i)
    {
      var g := GenerateGroup(ctx, config[i].0, config[i].1, files);
      GroupsUpToSnoc(ctx, config, files, i, groups, g);
      groups := groups + [g];
      i := i + 1;
    }
  }

  /** `generate_tasks`: one group per configuration entry, in order. */
  method GenerateTasks(ctx: Context, config: seq<(string, CommandSpec)>, files: seq<string>)
    returns (groups: seq<Group>)
    ensures |groups| == |config|
    ensures forall i :: 0 <= i < |config| ==> groups[i] == MakeGroup(ctx, config[i].0, config[i].1, files)
  {
    groups := CollectGroups(ctx, config, files);
    GroupsUpToAt(ctx, config, files, |config|);
  }

  /** A group's shape: its title is the pattern and the file-count suffix; no
      matched file means no sub-task; otherwise one sub-task per command, in
      order, titled by the command and tagged with the pattern. */
  lemma {:induction false} GroupShape(ctx: Context, pattern: string, spec: CommandSpec, files: seq<string>)
    ensures var g := MakeGroup(ctx, pattern, spec, files);
      var matched := MatchedFiles(ctx, pattern, files);
      && g.fileCount == |matched|
      && g.title == pattern + " - " + CountSuffix(g.fileCount)
      && (g.fileCount == 0 ==> g.tasks == [])
      && (g.fileCount > 0 ==> |g.tasks| == |Commands(ctx, spec, matched)|)
      && (g.fileCount > 0 ==> forall i :: 0 <= i < |g.tasks| ==>
            g.tasks[i].title == Commands(ctx, spec, matched)[i] && g.tasks[i].pattern == pattern
            && g.tasks[i].cwd == ctx.root)
  {
  }

  /** A literal command runs with its own arguments followed by the matched
      files; a generated one runs with exactly the arguments it returned. */
  lemma {:induction false} SubTaskArguments(ctx: Context, pattern: string, spec: CommandSpec, files: seq<string>, i: nat)
    requires i < |MakeGroup(ctx, pattern, spec, files).tasks|
    ensures var g := MakeGroup(ctx, pattern, spec, files);
      var matched := MatchedFiles(ctx, pattern, files);
      var tokens := ctx.tokenize(g.tasks[i].title);
      && g.tasks[i].command == Head(tokens)
      && (spec.Literal? ==>
            g.tasks[i].args == Tail(tokens) + matched && g.tasks[i].args[|Tail(tokens)|..] == matched)
      && (spec.Generated? ==>
            g.tasks[i].args == Tail(tokens) && g.tasks[i].title in spec.generator(matched, ctx.mode))
  {
    var g := MakeGroup(ctx, pattern, spec, files);
    var matched := MatchedFiles(ctx, pattern, files);
    assert g.tasks[i] == MakeSubTask(ctx, pattern, spec, matched, Commands(ctx, spec, matched)[i]);
  }

  /** A file that lies outside `cwd` is never matched by a pattern that does
      not itself start with "../", whatever the glob says. */
  lemma {:induction false} OutsideCwdSkipped(ctx: Context, pattern: string, file: string)
    requires !StartsWith(pattern, "../")
    requires !(ctx.cwd <= Resolve(ctx.root, file))
    ensures !Keeps(ctx, pattern, file)
  {
    var to := Resolve(ctx.root, file);
    var k := CommonPrefixLength(ctx.cwd, to);
    assert k < |ctx.cwd|;
    var r := RelativeSegments(ctx.cwd, to);
    assert r[0] == "..";
    var s := Join(r, "/");
    assert StartsWith(s, "..") by {
      if |r| == 1 {
        assert s == "..";
      } else {
        assert s == r[0] + "/" + Join(r[1..], "/");
      }
    }
    assert StartsWith(MatchPath(ctx, file), "..") by {
      assert Relative(ctx.cwd, to) == s;
      assert ReplaceBackslashes(s)[..2] == s[..2];
    }
  }

  predicate NoBackslash(p: AbsPath)
  {
    forall i :: 0 <= i < |p| ==> '\\' !in p[i]
  }

  /** Re-absolutising the matched path against `cwd` gives back the file's
      own absolute path, as long as no name in it holds a backslash. */
  lemma {:induction false} TaskFileIsAbsolutePath(ctx: Context, file: string)
    requires NoBackslash(ctx.cwd) && NoBackslash(Resolve(ctx.root, file))
    ensures TaskFile(ctx, file) == Render(Resolve(ctx.root, file))
  {
    var to := Resolve(ctx.root, file);
    var rel := Relative(ctx.cwd, to);
    assert '\\' !in rel by {
      RelativeSegmentsNoBackslash(ctx.cwd, to);
      var r := RelativeSegments(ctx.cwd, to);
      if |r| > 0 {
        JoinNoChar(r, "/", '\\');
      }
    }
    assert ReplaceBackslashes(rel) == rel;
    ResolveRelative(ctx.cwd, to);
  }

  lemma {:induction false} RelativeSegmentsNoBackslash(from: AbsPath, to: AbsPath)
    requires NoBackslash(to)
    ensures forall i :: 0 <= i < |RelativeSegments(from, to)| ==> '\\' !in RelativeSegments(from, to)[i]
  {
    var k := CommonPrefixLength(from, to);
    var r := RelativeSegments(from, to);
    forall i | 0 <= i < |r| ensures '\\' !in r[i] {
      if i >= |from| - k {
        assert r[i] == to[k + i - (|from| - k)];
      }
    }
  }

  lemma {:induction false} JoinNoChar(parts: seq<string>, sep: string, c: char)
    requires c !in sep
    requires forall i :: 0 <= i < |parts| ==> c !in parts[i]
    ensures c !in Join(parts, sep)
    decreases |parts|
  {
    if |parts| > 1 {
      JoinNoChar(parts[1..], sep, c);
    }
  }
}
