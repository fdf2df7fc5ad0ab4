/** A simplified POSIX model of Node's `path` module: an absolute normalised
    path is the list of its segments below "/", `resolve` folds a relative or
    absolute string onto a base, `relative` climbs to the common ancestor and
    descends again, and `dirname` drops the last segment. */
module Paths {
  import opened Strings

  /** A segment that survives normalisation: not empty, not "." or "..", no "/". */
  predicate IsSegment(s: string)
  {
    s != "" && s != "." && s != ".." && '/' !in s
  }

  predicate Clean(p: seq<string>)
  {
    forall i :: 0 <= i < |p| ==> IsSegment(p[i])
  }

  /** An absolute, normalised path, as its segments below the root. */
  type AbsPath = p: seq<string> | Clean(p) witness []

  /** The path as Node prints it: "/" for the root, "/a/b" otherwise. */
  function Render(p: AbsPath): string
  {
    "/" + Join(p, "/")
  }

  /** `path.dirname`: the parent directory; the root is its own parent. */
  function Dirname(p: AbsPath): (d: AbsPath)
    ensures |p| > 0 ==> |d| == |p| - 1 && d == p[..|p| - 1]
    ensures |p| == 0 ==> d == p
  {
    if |p| == 0 then p else p[..|p| - 1]
  }

  predicate IsAbsolute(s: string)
  {
    |s| > 0 && s[0] == '/'
  }

  /** Folds the segments of a path string onto `acc` the way `path.resolve`
      and `path.normalize` do: "" and "." vanish, ".." climbs (never above
      the root), anything else descends. */
  function NormalizeFrom(acc: AbsPath, rest: seq<string>): (r: AbsPath)
    requires forall i :: 0 <= i < |rest| ==> '/' !in rest[i]
    decreases |rest|
  {
    if |rest| == 0 then acc
    else if rest[0] == "" || rest[0] == "." then NormalizeFrom(acc, rest[1..])
    else if rest[0] == ".." then NormalizeFrom(Dirname(acc), rest[1..])
    else NormalizeFrom(acc + [rest[0]], rest[1..])
  }

  /** `path.resolve(base, s)`: an absolute `s` ignores the base. */
  function Resolve(base: AbsPath, s: string): AbsPath
  {
    NormalizeFrom(if IsAbsolute(s) then [] else base, Split(s, '/'))
  }

  function CommonPrefixLength(a: seq<string>, b: seq<string>): (k: nat)
    ensures k <= |a| && k <= |b|
    ensures a[..k] == b[..k]
    ensures k < |a| && k < |b| ==> a[k] != b[k]
  {
    if |a| == 0 || |b| == 0 || a[0] != b[0] then 0
    else
      var k := 1 + CommonPrefixLength(a[1..], b[1..]);
      assert a[..k] == [a[0]] + a[1..][..k - 1];
      assert b[..k] == [b[0]] + b[1..][..k - 1];
      k
  }

  function Ups(n: nat): (r: seq<string>)
    ensures |r| == n
    ensures forall i :: 0 <= i < n ==> r[i] == ".."
  {
    if n == 0 then [] else [".."] + Ups(n - 1)
  }

  /** The segments of `path.relative(from, to)`: up to the common ancestor, then down. */
  function RelativeSegments(from: AbsPath, to: AbsPath): (r: seq<string>)
    ensures forall i :: 0 <= i < |r| ==> '/' !in r[i]
  {
    var k := CommonPrefixLength(from, to);
    Ups(|from| - k) + to[k..]
  }

  /** `path.normalize(path.relative(from, to))`: "." when both are the same directory. */
  function Relative(from: AbsPath, to: AbsPath): string
  {
    var r := RelativeSegments(from, to);
    if |r| == 0 then "." else Join(r, "/")
  }

  lemma {:induction false} NormalizeClimbs(acc: AbsPath, n: nat, rest: seq<string>)
    requires n <= |acc|
    requires forall i :: 0 <= i < |rest| ==> '/' !in rest[i]
    ensures NormalizeFrom(acc, Ups(n) + rest) == NormalizeFrom(acc[..|acc| - n], rest)
    decreases n
  {
    if n > 0 {
      var s := Ups(n) + rest;
      assert s[0] == "..";
      assert s[1..] == Ups(n - 1) + rest;
      NormalizeClimbs(Dirname(acc), n - 1, rest);
      assert Dirname(acc)[..|Dirname(acc)| - (n - 1)] == acc[..|acc| - n];
    } else {
      assert Ups(0) + rest == rest;
      assert acc[..|acc| - 0] == acc;
    }
  }

  lemma {:induction false} NormalizeClean(acc: AbsPath, rest: AbsPath)
    ensures NormalizeFrom(acc, rest) == acc + rest
    decreases |rest|
  {
    if |rest| > 0 {
      NormalizeClean(acc + [rest[0]], rest[1..]);
      assert acc + [rest[0]] + rest[1..] == acc + rest;
    }
  }

  /** Resolving the relative path from `from` to `to` against `from` lands on `to`. */
  lemma {:induction false} ResolveRelative(from: AbsPath, to: AbsPath)
    ensures Resolve(from, Relative(from, to)) == to
  {
    if |RelativeSegments(from, to)| == 0 {
      ResolveRelativeSame(from, to);
    } else {
      ResolveRelativeApart(from, to);
    }
  }

  /** No segments: the two paths are the same, and "." resolves to `from`. */
  lemma {:induction false} ResolveRelativeSame(from: AbsPath, to: AbsPath)
    requires |RelativeSegments(from, to)| == 0
    ensures Resolve(from, Relative(from, to)) == to
  {
    var k := CommonPrefixLength(from, to);
    assert Split(".", '/') == ["."];
    assert NormalizeFrom(from, ["."]) == NormalizeFrom(from, ["."][1..]) == from;
    assert to == to[..k] == from[..k] == from;
  }

  /** Some segments: the joined string is relative and splits back into them. */
  lemma {:induction false} ResolveRelativeApart(from: AbsPath, to: AbsPath)
    requires |RelativeSegments(from, to)| > 0
    ensures Resolve(from, Relative(from, to)) == to
  {
    var r := RelativeSegments(from, to);
    RelativeNotAbsolute(from, to);
    SplitJoin(r, '/');
    assert Relative(from, to) == Join(r, "/");
    ClimbThenDescend(from, to);
  }

  lemma {:induction false} ClimbThenDescend(from: AbsPath, to: AbsPath)
    ensures NormalizeFrom(from, RelativeSegments(from, to)) == to
  {
    var k := CommonPrefixLength(from, to);
    var n := |from| - k;
    var rest: AbsPath := to[k..];
    assert RelativeSegments(from, to) == Ups(n) + rest;
    NormalizeClimbs(from, n, rest);
    var base: AbsPath := from[..k];
    assert from[..|from| - n] == base;
    NormalizeClean(base, rest);
    assert base == to[..k];
    SplitAt(to, k);
  }

  lemma {:induction false} SplitAt<T>(s: seq<T>, k: nat)
    requires k <= |s|
    ensures s[..k] + s[k..] == s
  {
    assert forall i :: 0 <= i < |s| ==> (s[..k] + s[k..])[i] == s[i];
  }

  lemma {:induction false} RelativeNotAbsolute(from: AbsPath, to: AbsPath)
    requires |RelativeSegments(from, to)| > 0
    ensures !IsAbsolute(Join(RelativeSegments(from, to), "/"))
  {
    var k := CommonPrefixLength(from, to);
    var r := RelativeSegments(from, to);
    if |from| - k > 0 {
      assert r[0] == "..";
    } else {
      assert r[0] == to[k];
      assert IsSegment(r[0]);
    }
    JoinHead(r, "/");
  }

  lemma {:induction false} JoinHead(parts: seq<string>, sep: string)
    requires |parts| > 0 && |parts[0]| > 0
    ensures |Join(parts, sep)| > 0 && Join(parts, sep)[0] == parts[0][0]
  {
  }
}
