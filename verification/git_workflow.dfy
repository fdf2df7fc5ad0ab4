/** lib/git-workflow.js: the steps the runner takes around the tasks, as
    functions of the repository. Each step returns the repository after it,
    the effects it had in order, and how it failed, if it did. A failed git
    call stops the step, as an `await` inside `try` does. */
module GitWorkflow {
  import opened Results
  import opened Strings
  import opened Paths
  import opened Repository

  const UnstagedPatchName: string := "nano-staged_partial.patch"
  const OriginalPatchName: string := "nano-staged.patch"

  /** Where the two patch files live. */
  datatype Patches = Patches(unstaged: string, original: string)

  /** `resolve(dotPath, './nano-staged_partial.patch')` and
      `resolve(dotPath, './nano-staged.patch')`: both directly inside the
      git directory, and never the same file. */
  function PatchPaths(dot: AbsPath): (p: Patches)
    ensures p.unstaged == Render(dot + [UnstagedPatchName])
    ensures p.original == Render(dot + [OriginalPatchName])
    ensures p.unstaged != p.original
  {
    ResolveInDirectory(dot, UnstagedPatchName);
    ResolveInDirectory(dot, OriginalPatchName);
    PatchPathsDiffer(dot);
    Patches(Render(Resolve(dot, "./" + UnstagedPatchName)), Render(Resolve(dot, "./" + OriginalPatchName)))
  }

  /** `./name` resolves to the entry `name` of the base directory. */
  lemma {:induction false} ResolveInDirectory(dot: AbsPath, name: string)
    requires IsSegment(name)
    ensures Resolve(dot, "./" + name) == dot + [name]
  {
    var parts := [".", name];
    assert Join(parts, "/") == "./" + name;
    SplitJoin(parts, '/');
    assert !IsAbsolute("./" + name);
    assert NormalizeFrom(dot, parts) == NormalizeFrom(dot, [name]);
    assert NormalizeFrom(dot, [name]) == NormalizeFrom(dot + [name], []);
  }

  lemma {:induction false} PatchPathsDiffer(dot: AbsPath)
    ensures Render(dot + [UnstagedPatchName]) != Render(dot + [OriginalPatchName])
  {
    assert |UnstagedPatchName| == 25 && UnstagedPatchName[11] == '_';
    assert |OriginalPatchName| == 17 && OriginalPatchName[3] == 'o';
    EntriesDiffer(dot, UnstagedPatchName, OriginalPatchName, 11, 3);
  }

  /** Two entries of a directory render differently when their names differ
      at the same distance from the end. */
  lemma {:induction false} EntriesDiffer(dot: AbsPath, a: string, b: string, i: nat, j: nat)
    requires IsSegment(a) && IsSegment(b)
    requires i < |a| && j < |b| && |a| - i == |b| - j && a[i] != b[j]
    ensures Render(dot + [a]) != Render(dot + [b])
  {
    var u := Render(dot + [a]);
    var o := Render(dot + [b]);
    JoinLast(dot, a, "/");
    JoinLast(dot, b, "/");
    EndsWithAt("/", Join(dot + [a], "/"), a, i);
    EndsWithAt("/", Join(dot + [b], "/"), b, j);
    if |u| == |o| {
      assert u[|u| - |a| + i] != o[|o| - |b| + j];
    }
  }

  /** The character `i` of a suffix, read from the end of the whole string. */
  lemma {:induction false} EndsWithAt(prefix: string, s: string, x: string, i: nat)
    requires EndsWith(s, x) && i < |x|
    ensures (prefix + s)[|prefix + s| - |x| + i] == x[i]
  {
    assert s[|s| - |x|..][i] == x[i];
  }

  /** A joined path ends with its last segment. */
  lemma {:induction false} JoinLast(p: seq<string>, x: string, sep: string)
    ensures EndsWith(Join(p + [x], sep), x)
    decreases |p|
  {
    if |p| == 0 {
      assert p + [x] == [x];
    } else {
      JoinLast(p[1..], x, sep);
      assert (p + [x])[1..] == p[1..] + [x];
      var j := Join(p + [x], sep);
      var rest := Join(p[1..] + [x], sep);
      assert j == p[0] + sep + rest;
      assert j[|j| - |x|..] == rest[|rest| - |x|..];
    }
  }

  /** `has_patch(path)`: a non-empty path naming a readable file with
      content; a missing file reads as an error, which counts as no patch. */
  predicate HasPatch(fs: map<string, string>, path: string)
  {
    path != "" && path in fs && fs[path] != ""
  }

  /** How a step fails: a git error passed through, the empty-commit guard,
      or a patch that applies neither directly nor with a 3-way merge. */
  datatype Failure = GitFailed(message: string) | EmptyGitCommit | MergeConflict

  /** What a step leaves: the repository, its effects in order, its failure. */
  datatype StepResult = StepResult(repo: Repo, trace: seq<Effect>, failure: Option<Failure>)

  /** A step that does nothing. */
  function Nothing(repo: Repo): StepResult
  {
    StepResult(repo, [], None)
  }

  /** One git call; a failure changes nothing and is passed through. */
  function Issue(git: Git, repo: Repo, call: GitCall): (r: StepResult)
    ensures r.trace == [Call(call)]
    ensures r.failure.None? <==> git(call, repo).Ok?
    ensures git(call, repo).Ok? ==> r.repo == git(call, repo).repo
    ensures git(call, repo).Err? ==> r.repo == repo && r.failure == Some(GitFailed(git(call, repo).message))
  {
    match git(call, repo)
    case Ok(repo1, _) => StepResult(repo1, [Call(call)], None)
    case Err(m) => StepResult(repo, [Call(call)], Some(GitFailed(m)))
  }

  /** `backup_original_state`: the whole diff is written to the original
      patch; a git failure is passed through. */
  function BackupOriginalState(git: Git, repo: Repo, dot: AbsPath): (r: StepResult)
    ensures r.trace == [Call(DiffTo(PatchPaths(dot).original, []))]
    ensures r.failure.Some? <==> git(DiffTo(PatchPaths(dot).original, []), repo).Err?
  {
    Issue(git, repo, DiffTo(PatchPaths(dot).original, []))
  }

  /** `backup_unstaged_files(files)`: nothing for no files; otherwise the
      unstaged changes of exactly those files go to the partial patch, and
      only once that succeeded are those files checked out. */
  function BackupUnstagedFiles(git: Git, repo: Repo, dot: AbsPath, files: seq<string>): (r: StepResult)
    ensures |files| == 0 ==> r == Nothing(repo)
    ensures |files| > 0 ==> |r.trace| >= 1 && r.trace[0] == Call(DiffTo(PatchPaths(dot).unstaged, files))
    ensures Call(Checkout(files)) in r.trace
            <==> |files| > 0 && git(DiffTo(PatchPaths(dot).unstaged, files), repo).Ok?
    ensures r.failure.None? <==>
              |files| == 0
              || (&& git(DiffTo(PatchPaths(dot).unstaged, files), repo).Ok?
                  && git(Checkout(files), git(DiffTo(PatchPaths(dot).unstaged, files), repo).repo).Ok?)
  {
    if |files| == 0 then Nothing(repo)
    else
      var d := Issue(git, repo, DiffTo(PatchPaths(dot).unstaged, files));
      if d.failure.Some? then d
      else
        var c := Issue(git, d.repo, Checkout(files));
        StepResult(c.repo, d.trace + c.trace, c.failure)
  }

  /** `apply_modifications(files)`: nothing for no files. Otherwise, when
      `git diff HEAD` prints nothing and empty commits are not allowed, the
      step fails with the empty-commit reason and `add` is never called;
      in every other successful case exactly the given files are added. */
  function ApplyModifications(git: Git, repo: Repo, allowEmpty: bool, files: seq<string>): (r: StepResult)
    ensures |files| == 0 ==> r == Nothing(repo)
    ensures r.failure == Some(EmptyGitCommit) <==>
              |files| > 0 && git(DiffHead, repo).Ok? && git(DiffHead, repo).out == "" && !allowEmpty
    ensures Call(Add(files)) in r.trace <==>
              |files| > 0 && git(DiffHead, repo).Ok? && (git(DiffHead, repo).out != "" || allowEmpty)
    ensures forall i :: 0 <= i < |r.trace| && r.trace[i].Call? && r.trace[i].call.Add? ==> r.trace[i].call.files == files
    ensures |files| > 0 ==> |r.trace| >= 1 && r.trace[0] == Call(DiffHead)
    ensures r.failure.None? <==>
              |files| == 0
              || (&& git(DiffHead, repo).Ok?
                  && (git(DiffHead, repo).out != "" || allowEmpty)
                  && git(Add(files), git(DiffHead, repo).repo).Ok?)
    ensures |files| > 0 && git(DiffHead, repo).Err? ==> r.failure == Some(GitFailed(git(DiffHead, repo).message))
  {
    if |files| == 0 then Nothing(repo)
    else
      match git(DiffHead, repo)
      case Err(m) => StepResult(repo, [Call(DiffHead)], Some(GitFailed(m)))
      case Ok(repo1, out) =>
        if out == "" && !allowEmpty then StepResult(repo1, [Call(DiffHead)], Some(EmptyGitCommit))
        else
          var a := Issue(git, repo1, Add(files));
          StepResult(a.repo, [Call(DiffHead)] + a.trace, a.failure)
  }

  /** `restore_unstaged_files(files)`: nothing for no files; otherwise the
      partial patch is applied directly, then with a 3-way merge only if that
      failed; the step fails, always as a merge conflict, exactly when both
      attempts failed, and then the repository is unchanged. */
  function RestoreUnstagedFiles(git: Git, repo: Repo, dot: AbsPath, files: seq<string>): (r: StepResult)
    ensures |files| == 0 ==> r == Nothing(repo)
    ensures var u := PatchPaths(dot).unstaged;
      && (|files| > 0 ==> |r.trace| >= 1 && r.trace[0] == Call(Apply(u, false)))
      && (Call(Apply(u, true)) in r.trace <==> |files| > 0 && git(Apply(u, false), repo).Err?)
      && (r.failure.Some? <==> |files| > 0 && git(Apply(u, false), repo).Err? && git(Apply(u, true), repo).Err?)
    ensures r.failure.Some? ==> r.failure == Some(MergeConflict) && r.repo == repo
  {
    if |files| == 0 then Nothing(repo)
    else
      var u := PatchPaths(dot).unstaged;
      match git(Apply(u, false), repo)
      case Ok(repo1, _) => StepResult(repo1, [Call(Apply(u, false))], None)
      case Err(_) =>
        match git(Apply(u, true), repo)
        case Ok(repo2, _) => StepResult(repo2, [Call(Apply(u, false)), Call(Apply(u, true))], None)
        case Err(_) => StepResult(repo, [Call(Apply(u, false)), Call(Apply(u, true))], Some(MergeConflict))
  }

  /** `restore_original_state`: always checks out `.` first; the original
      patch is applied (directly, never with a 3-way merge) only when the
      checkout succeeded and the patch file has content; the step fails
      exactly when one of those git calls does. */
  function RestoreOriginalState(git: Git, repo: Repo, dot: AbsPath): (r: StepResult)
    ensures |r.trace| >= 1 && r.trace[0] == Call(Checkout(["."]))
    ensures var o := PatchPaths(dot).original;
      var c := git(Checkout(["."]), repo);
      Call(Apply(o, false)) in r.trace <==> c.Ok? && HasPatch(c.repo.fs, o)
    ensures forall i :: 0 <= i < |r.trace| ==> r.trace[i] != Call(Apply(PatchPaths(dot).original, true))
    ensures git(Checkout(["."]), repo).Ok? && !HasPatch(git(Checkout(["."]), repo).repo.fs, PatchPaths(dot).original)
            ==> r == StepResult(git(Checkout(["."]), repo).repo, [Call(Checkout(["."]))], None)
    ensures var o := PatchPaths(dot).original;
      var c := git(Checkout(["."]), repo);
      r.failure.Some? <==> c.Err? || (HasPatch(c.repo.fs, o) && git(Apply(o, false), c.repo).Err?)
  {
    var o := PatchPaths(dot).original;
    var c := Issue(git, repo, Checkout(["."]));
    if c.failure.Some? then c
    else if HasPatch(c.repo.fs, o) then
      var a := Issue(git, c.repo, Apply(o, false));
      StepResult(a.repo, c.trace + a.trace, a.failure)
    else c
  }

  /** Deletes `path` when it holds a patch. */
  function UnlinkIfPatch(fs: map<string, string>, path: string): (r: (map<string, string>, seq<Effect>))
  {
    if HasPatch(fs, path) then (fs - {path}, [Unlink(path)]) else (fs, [])
  }

  /** `clean_up`: deletes the original patch, then the partial one, each only
      when it has content. It never fails and touches nothing in git; every
      other file keeps its content, and an empty patch file stays on disk. */
  function CleanUp(repo: Repo, dot: AbsPath): (r: StepResult)
    ensures r.failure.None?
    ensures r.repo.head == repo.head && r.repo.index == repo.index && r.repo.work == repo.work
    ensures var p := PatchPaths(dot);
      forall path :: path in r.repo.fs <==>
        path in repo.fs && !((path == p.original || path == p.unstaged) && HasPatch(repo.fs, path))
    ensures forall path :: path in r.repo.fs ==> r.repo.fs[path] == repo.fs[path]
    ensures !HasPatch(r.repo.fs, PatchPaths(dot).original) && !HasPatch(r.repo.fs, PatchPaths(dot).unstaged)
    ensures var p := PatchPaths(dot);
      r.trace == (if HasPatch(repo.fs, p.original) then [Unlink(p.original)] else [])
                 + (if HasPatch(repo.fs, p.unstaged) then [Unlink(p.unstaged)] else [])
  {
    var p := PatchPaths(dot);
    var (fs1, t1) := UnlinkIfPatch(repo.fs, p.original);
    var (fs2, t2) := UnlinkIfPatch(fs1, p.unstaged);
    StepResult(repo.(fs := fs2), t1 + t2, None)
  }
}
