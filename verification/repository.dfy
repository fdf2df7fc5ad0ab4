/** The repository the workflow acts on and the git commands it issues.
    lib/git.js is not part of this model: what a command does to the
    repository, and whether it fails, is given by a `Git` oracle. Files on
    disk that the workflow reads or deletes directly are the `fs` map. */
module Repository {
  /** A tree of tracked files: path to content. */
  type Tree = map<string, string>

  /** HEAD, the index, the working tree, and the files on disk outside git's
      view (the patch files), by absolute path. */
  datatype Repo = Repo(head: Tree, index: Tree, work: Tree, fs: map<string, string>)

  /** The git calls the workflow makes:
      `git.diff(patch, files)` writes the unstaged changes of `files` (all
      files when empty) to `patch`; `git.checkout(paths)`;
      `git.exec(['diff', 'HEAD'])`; `git.add(files)`;
      `git.apply(patch, threeWay)`. */
  datatype GitCall =
    | DiffTo(patch: string, files: seq<string>)
    | Checkout(paths: seq<string>)
    | DiffHead
    | Add(files: seq<string>)
    | Apply(patch: string, threeWay: bool)

  /** A call either succeeds, with the repository after it and its standard
      output, or fails with a message and changes nothing. */
  datatype Reply = Ok(repo: Repo, out: string) | Err(message: string)

  /** The behaviour of git itself. */
  type Git = (GitCall, Repo) -> Reply

  /** What the workflow did, in order: a git call or an `fs.unlinkSync`. */
  datatype Effect = Call(call: GitCall) | Unlink(path: string)
}
