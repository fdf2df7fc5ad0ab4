/** lib/bin.js: turning the command line into options. The signal handler,
    the colour level and the exit code are left out; the parsed options are
    what `run` hands to the entry point. */
module Cli {
  import opened Results

  /** The options object `run` builds. An absent key and a key set to
      `undefined` behave the same downstream, so `config` is an `Option`;
      `diff` is `None` until `--diff` is seen. */
  datatype CliOptions = CliOptions(config: Option<string>, unstaged: bool, allowEmpty: bool, diff: Option<seq<string>>)

  const NoOptions: CliOptions := CliOptions(None, false, false, None)

  predicate IsConfigFlag(arg: string)
  {
    arg == "-c" || arg == "--config"
  }

  predicate IsUnstagedFlag(arg: string)
  {
    arg == "-u" || arg == "--unstaged"
  }

  /** An argument none of the four branches recognises. */
  predicate IsPlain(arg: string)
  {
    !IsConfigFlag(arg) && !IsUnstagedFlag(arg) && arg != "--allow-empty" && arg != "--diff"
  }

  /** The parse between two arguments: the options so far, and whether the
      previous argument was a config flag waiting for its value. */
  datatype ParseState = ParseState(options: CliOptions, awaitingConfig: bool)

  /** One argument. A waiting config flag takes it whatever it is; a plain
      argument is a ref only after `--diff` and while fewer than two are held
      (an empty list is truthy in JavaScript). */
  function Feed(st: ParseState, arg: string): (r: ParseState)
  {
    var o := st.options;
    if st.awaitingConfig then ParseState(o.(config := Some(arg)), false)
    else if IsConfigFlag(arg) then ParseState(o, true)
    else if IsUnstagedFlag(arg) then ParseState(o.(unstaged := true), false)
    else if arg == "--allow-empty" then ParseState(o.(allowEmpty := true), false)
    else if arg == "--diff" then ParseState(o.(diff := Some([])), false)
    else if o.diff.Some? && |o.diff.value| != 2 then ParseState(o.(diff := Some(o.diff.value + [arg])), false)
    else st
  }

  /** The arguments fed left to right from an empty parse. */
  function FeedAll(args: seq<string>): ParseState
  {
    if |args| == 0 then ParseState(NoOptions, false)
    else Feed(FeedAll(args[..|args| - 1]), args[|args| - 1])
  }

  /** The user's arguments start at index 2, after `node` and the script.
      A config flag with nothing after it reads past the end and leaves
      `config` undefined. */
  function Parse(argv: seq<string>): CliOptions
  {
    var st := FeedAll(if |argv| >= 2 then argv[2..] else []);
    if st.awaitingConfig then st.options.(config := None) else st.options
  }

  /** The loop of `run`, jumping over a config flag's value. */
  method ParseArgv(argv: seq<string>) returns (options: CliOptions)
    ensures options == Parse(argv)
  {
    options := NoOptions;
    var i := 2;
    while i < |argv|
      invariant 2 <= i
      invariant |argv| < 2 ==> i == 2 && options == NoOptions
      invariant |argv| >= 2 ==> i <= |argv| + 1
      invariant i <= |argv| ==> FeedAll(argv[2..i]) == ParseState(options, false)
      invariant i == |argv| + 1 ==> options == Parse(argv)
      decreases |argv| + 1 - i
    {
      var arg := argv[i];
      FeedOne(argv, i);
      if IsConfigFlag(arg) {
        i := i + 1;
        if i < |argv| {
          options := options.(config := Some(argv[i]));
          FeedOne(argv, i);
        } else {
          assert argv[2..i] == argv[2..];
          options := options.(config := None);
        }
      } else if IsUnstagedFlag(arg) {
        options := options.(unstaged := true);
      } else if arg == "--allow-empty" {
        options := options.(allowEmpty := true);
      } else if arg == "--diff" {
        options := options.(diff := Some([]));
      } else if options.diff.Some? && |options.diff.value| != 2 {
        options := options.(diff := Some(options.diff.value + [argv[i]]));
      }
      i := i + 1;
    }
    if i == |argv| {
      assert argv[2..i] == if |argv| >= 2 then argv[2..] else [];
    }
  }

  lemma {:induction false} FeedOne(argv: seq<string>, i: nat)
    requires 2 <= i < |argv|
    ensures FeedAll(argv[2..i + 1]) == Feed(FeedAll(argv[2..i]), argv[i])
  {
    assert argv[2..i + 1][..i - 2] == argv[2..i];
  }

  /** Feeding a concatenation is feeding one part after the other. */
  function FeedFrom(st: ParseState, args: seq<string>): ParseState
    decreases |args|
  {
    if |args| == 0 then st else FeedFrom(Feed(st, args[0]), args[1..])
  }

  lemma {:induction false} FeedAllFrom(args: seq<string>, more: seq<string>)
    ensures FeedAll(args + more) == FeedFrom(FeedAll(args), more)
    decreases |more|
  {
    if |more| > 0 {
      assert args + more == (args + [more[0]]) + more[1..];
      assert (args + [more[0]])[..|args|] == args;
      FeedAllFrom(args + [more[0]], more[1..]);
    } else {
      assert args + more == args;
    }
  }

  /** At most two refs are ever held. */
  lemma {:induction false} DiffHoldsAtMostTwo(args: seq<string>)
    ensures FeedAll(args).options.diff.Some? ==> |FeedAll(args).options.diff.value| <= 2
    decreases |args|
  {
    if |args| > 0 {
      DiffHoldsAtMostTwo(args[..|args| - 1]);
    }
  }

  /** After `--diff`, the plain arguments that follow are the refs, up to
      two; later ones are ignored, and refs given before it are discarded. */
  lemma {:induction false} DiffTakesTwo(st: ParseState, refs: seq<string>)
    requires !st.awaitingConfig
    requires forall j :: 0 <= j < |refs| ==> IsPlain(refs[j])
    ensures FeedFrom(st, ["--diff"] + refs).options
            == st.options.(diff := Some(if |refs| <= 2 then refs else refs[..2]))
    ensures !FeedFrom(st, ["--diff"] + refs).awaitingConfig
  {
    assert (["--diff"] + refs)[0] == "--diff" && (["--diff"] + refs)[1..] == refs;
    var st1 := Feed(st, "--diff");
    assert st1 == ParseState(st.options.(diff := Some([])), false);
    assert FeedFrom(st, ["--diff"] + refs) == FeedFrom(st1, refs);
    FeedPlain(st1, refs);
    var kept := if |refs| <= 2 then refs else refs[..2];
    assert [] + kept == kept;
    assert st1.options.(diff := Some([] + kept)) == st.options.(diff := Some(kept));
  }

  lemma {:induction false} FeedPlain(st: ParseState, refs: seq<string>)
    requires !st.awaitingConfig && st.options.diff.Some? && |st.options.diff.value| <= 2
    requires forall j :: 0 <= j < |refs| ==> IsPlain(refs[j])
    ensures var held := st.options.diff.value;
      var room := 2 - |held|;
      FeedFrom(st, refs) == ParseState(st.options.(diff := Some(held + (if |refs| <= room then refs else refs[..room]))), false)
    decreases |refs|
  {
    var held := st.options.diff.value;
    if |refs| > 0 {
      var next := Feed(st, refs[0]);
      FeedPlain(next, refs[1..]);
      if |held| < 2 {
        assert next.options.diff.value == held + [refs[0]];
        var room := 2 - |held|;
        assert FeedFrom(st, refs) == FeedFrom(next, refs[1..]);
        if |refs| <= room {
          assert held + [refs[0]] + refs[1..] == held + refs;
        } else {
          assert held + [refs[0]] + refs[1..][..room - 1] == held + refs[..room];
        }
      } else {
        assert next == st;
        assert refs[..0] == [] && refs[1..][..0] == [];
        assert held + [] == held;
        assert st.options.(diff := Some(held)) == st.options;
      }
    } else {
      assert held + [] == held;
    }
  }

  /** Without a prior `--diff`, plain arguments change nothing. */
  lemma {:induction false} PlainIgnoredWithoutDiff(st: ParseState, args: seq<string>)
    requires !st.awaitingConfig && st.options.diff.None?
    requires forall j :: 0 <= j < |args| ==> IsPlain(args[j])
    ensures FeedFrom(st, args) == st
    decreases |args|
  {
    if |args| > 0 {
      PlainIgnoredWithoutDiff(Feed(st, args[0]), args[1..]);
    }
  }

  /** A config flag takes the next argument as the config, even one that
      looks like a flag; as the last argument it leaves the config undefined,
      discarding one given earlier. */
  lemma {:induction false} ConfigTakesNext(prefix: seq<string>, value: string)
    requires !FeedAll(prefix).awaitingConfig
    ensures FeedAll(prefix + ["-c", value]) == ParseState(FeedAll(prefix).options.(config := Some(value)), false)
    ensures Parse(["node", "nano-staged"] + prefix + ["-c"]).config == None
  {
    var s := FeedAll(prefix);
    FeedAllFrom(prefix, ["-c", value]);
    FeedAllFrom(prefix, ["-c"]);
    assert ["-c", value][0] == "-c" && ["-c", value][1..] == [value] && [value][1..] == [];
    assert FeedFrom(s, ["-c", value]) == FeedFrom(Feed(s, "-c"), [value]);
    assert FeedFrom(Feed(s, "-c"), [value]) == FeedFrom(Feed(Feed(s, "-c"), value), []);
    assert ["-c"][1..] == [];
    assert FeedFrom(s, ["-c"]) == FeedFrom(Feed(s, "-c"), []);
    assert (["node", "nano-staged"] + prefix + ["-c"])[2..] == prefix + ["-c"];
  }

  /** `-u` and `--allow-empty` set their option for good. */
  lemma {:induction false} FlagsStick(args: seq<string>, more: seq<string>)
    ensures FeedAll(args).options.unstaged ==> FeedAll(args + more).options.unstaged
    ensures FeedAll(args).options.allowEmpty ==> FeedAll(args + more).options.allowEmpty
    decreases |more|
  {
    FeedAllFrom(args, more);
    FeedFromKeepsFlags(FeedAll(args), more);
  }

  lemma {:induction false} FeedFromKeepsFlags(st: ParseState, more: seq<string>)
    ensures st.options.unstaged ==> FeedFrom(st, more).options.unstaged
    ensures st.options.allowEmpty ==> FeedFrom(st, more).options.allowEmpty
    decreases |more|
  {
    if |more| > 0 {
      FeedFromKeepsFlags(Feed(st, more[0]), more[1..]);
    }
  }
}
