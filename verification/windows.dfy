/** lib/utils/windows.js: augmenting the process environment so that, on
    Windows, a variable already present under some casing is overwritten
    under every casing it has instead of gaining a second, differently-cased
    copy. The platform test and the `process.env` snapshot are parameters,
    and so is `String.prototype.toLowerCase`: its Unicode case mapping is
    not modelled, and nothing proved here depends on which mapping it is. */
module WindowsEnv {
  import opened Results

  type Env = map<string, string>

  /** `toLowerCase`, the key under which casings of one name are grouped. */
  type LowerCase = string -> string

  /** An augmentation, one `[name, value]` of `Object.entries(augmentations)`. */
  type Augmentation = (string, string)

  /** `names` is `Object.keys(env)`: every key of `env`, and nothing else. */
  predicate ListsKeys(env: Env, names: seq<string>)
  {
    && (forall i :: 0 <= i < |names| ==> names[i] in env)
    && (forall k :: k in env ==> k in names)
  }

  /** The names among `names` whose lower-case form is `l`, in order. */
  function WithLower(lower: LowerCase, names: seq<string>, l: string): (r: seq<string>)
    ensures forall i :: 0 <= i < |r| ==> lower(r[i]) == l
  {
    if |names| == 0 then []
    else
      var n := names[|names| - 1];
      WithLower(lower, names[..|names| - 1], l) + (if lower(n) == l then [n] else [])
  }

  /** `ENVIRONMENT_VARIABLE_CASINGS_IF_WINDOWS`: every name, in order, pushed
      onto the list kept under its lower-case form. */
  function Casings(lower: LowerCase, names: seq<string>): map<string, seq<string>>
  {
    if |names| == 0 then map[]
    else
      var m := Casings(lower, names[..|names| - 1]);
      var n := names[|names| - 1];
      var l := lower(n);
      m[l := (if l in m then m[l] else []) + [n]]
  }

  /** The casing map holds one entry per lower-case form that occurs, and the
      entry lists exactly the names with that form, in their original order. */
  lemma {:induction false} CasingsGroupNames(lower: LowerCase, names: seq<string>)
    ensures forall l :: l in Casings(lower, names) <==> exists i :: 0 <= i < |names| && lower(names[i]) == l
    ensures forall l :: l in Casings(lower, names) ==> Casings(lower, names)[l] == WithLower(lower, names, l)
    ensures forall l :: l in Casings(lower, names) ==> |Casings(lower, names)[l]| > 0
    decreases |names|
  {
    if |names| > 0 {
      var init := names[..|names| - 1];
      CasingsGroupNames(lower, init);
      forall l ensures l in Casings(lower, names) <==> exists i :: 0 <= i < |names| && lower(names[i]) == l {
        if l in Casings(lower, init) {
          var i :| 0 <= i < |init| && lower(init[i]) == l;
          assert names[i] == init[i];
        }
        if exists i :: 0 <= i < |names| && lower(names[i]) == l {
          var i :| 0 <= i < |names| && lower(names[i]) == l;
          if i < |init| {
            assert init[i] == names[i];
          }
        }
      }
      forall l | l in Casings(lower, names) ensures Casings(lower, names)[l] == WithLower(lower, names, l) {
        if l !in Casings(lower, init) && lower(names[|names| - 1]) != l {
          assert false;
        }
        if l !in Casings(lower, init) && lower(names[|names| - 1]) == l {
          assert WithLower(lower, init, l) == [] by {
            if |WithLower(lower, init, l)| > 0 {
              WithLowerIsFromNames(lower, init, l, 0);
            }
          }
        }
      }
    }
  }

  lemma {:induction false} WithLowerIsFromNames(lower: LowerCase, names: seq<string>, l: string, j: nat)
    requires j < |WithLower(lower, names, l)|
    ensures exists i :: 0 <= i < |names| && names[i] == WithLower(lower, names, l)[j]
    decreases |names|
  {
    var init := names[..|names| - 1];
    if j < |WithLower(lower, init, l)| {
      WithLowerIsFromNames(lower, init, l, j);
      var i :| 0 <= i < |init| && init[i] == WithLower(lower, init, l)[j];
      assert names[i] == init[i];
    } else {
      assert WithLower(lower, names, l)[j] == names[|names| - 1];
    }
  }

  /** No name is lost or duplicated: a name occurs in its group exactly as
      often as in the input, and in no other group. */
  lemma {:induction false} WithLowerCounts(lower: LowerCase, names: seq<string>, l: string, n: string)
    ensures multiset(WithLower(lower, names, l))[n] == (if lower(n) == l then multiset(names)[n] else 0)
    decreases |names|
  {
    if |names| > 0 {
      var init := names[..|names| - 1];
      WithLowerCounts(lower, init, l, n);
      assert names == init + [names[|names| - 1]];
    }
  }

  /** `{...env, ...augmentations}`: later augmentations win. */
  function Overlay(env: Env, augs: seq<Augmentation>): Env
  {
    if |augs| == 0 then env
    else
      var last := augs[|augs| - 1];
      Overlay(env, augs[..|augs| - 1])[last.0 := last.1]
  }

  /** Sets `value` under every name of `targets`. */
  function SetAll(acc: Env, targets: seq<string>, value: string): (r: Env)
    ensures r.Keys == acc.Keys + set t | t in targets
    ensures forall k :: k in r ==> r[k] == (if k in targets then value else acc[k])
  {
    if |targets| == 0 then acc
    else SetAll(acc, targets[..|targets| - 1], value)[targets[|targets| - 1] := value]
  }

  /** One step of the Windows loop: an unknown lower-case name is added as
      given, a known one overwrites every existing casing. */
  function AugmentOne(lower: LowerCase, acc: Env, casings: map<string, seq<string>>, aug: Augmentation): Env
  {
    var l := lower(aug.0);
    if l !in casings then acc[aug.0 := aug.1] else SetAll(acc, casings[l], aug.1)
  }

  function AugmentAll(lower: LowerCase, env: Env, casings: map<string, seq<string>>, augs: seq<Augmentation>): Env
  {
    if |augs| == 0 then env
    else AugmentOne(lower, AugmentAll(lower, env, casings, augs[..|augs| - 1]), casings, augs[|augs| - 1])
  }

  /** `augmentProcessEnvSafelyIfOnWindows(augmentations)`. The result is a new
      value; `env` itself is untouched. */
  function AugmentEnv(lower: LowerCase, isWindows: bool, env: Env, names: seq<string>, augs: seq<Augmentation>): Env
  {
    if !isWindows then Overlay(env, augs) else AugmentAll(lower, env, Casings(lower, names), augs)
  }

  /** Whether augmentation `aug` writes variable `k` on Windows. */
  predicate Targets(lower: LowerCase, casings: map<string, seq<string>>, aug: Augmentation, k: string)
  {
    if lower(aug.0) in casings then k in casings[lower(aug.0)] else aug.0 == k
  }

  /** The value of the last augmentation that writes `k`, if any. */
  function LastWriter(lower: LowerCase, casings: map<string, seq<string>>, augs: seq<Augmentation>, k: string): Option<string>
  {
    if |augs| == 0 then None
    else if Targets(lower, casings, augs[|augs| - 1], k) then Some(augs[|augs| - 1].1)
    else LastWriter(lower, casings, augs[..|augs| - 1], k)
  }

  /** The value of the last augmentation named exactly `k`, if any. */
  function LastNamed(augs: seq<Augmentation>, k: string): Option<string>
  {
    if |augs| == 0 then None
    else if augs[|augs| - 1].0 == k then Some(augs[|augs| - 1].1)
    else LastNamed(augs[..|augs| - 1], k)
  }

  /** Off Windows the result is the environment overlaid with the
      augmentations: a key takes the last augmentation of that exact name,
      and otherwise keeps its value. */
  lemma {:induction false} OverlaySpec(env: Env, augs: seq<Augmentation>)
    ensures forall k :: k in Overlay(env, augs) <==> k in env || LastNamed(augs, k).Some?
    ensures forall k :: k in Overlay(env, augs) ==>
              Overlay(env, augs)[k] == (if LastNamed(augs, k).Some? then LastNamed(augs, k).value else env[k])
    decreases |augs|
  {
    if |augs| > 0 {
      OverlaySpec(env, augs[..|augs| - 1]);
    }
  }

  /** On Windows every variable takes the value of the last augmentation that
      writes it; a variable appears in the result only if it was in the
      environment or some augmentation with an unknown lower-case name added it. */
  lemma {:induction false} AugmentAllSpec(lower: LowerCase, env: Env, casings: map<string, seq<string>>, augs: seq<Augmentation>)
    requires forall l, i :: l in casings && 0 <= i < |casings[l]| ==> casings[l][i] in env
    ensures forall k :: k in AugmentAll(lower, env, casings, augs) <==>
              k in env || (lower(k) !in casings && LastNamed(augs, k).Some?)
    ensures forall k :: LastWriter(lower, casings, augs, k).Some? && k in AugmentAll(lower, env, casings, augs) ==>
              AugmentAll(lower, env, casings, augs)[k] == LastWriter(lower, casings, augs, k).value
    ensures forall k :: LastWriter(lower, casings, augs, k).None? && k in env ==>
              k in AugmentAll(lower, env, casings, augs) && AugmentAll(lower, env, casings, augs)[k] == env[k]
    decreases |augs|
  {
    if |augs| > 0 {
      var init := augs[..|augs| - 1];
      var a := augs[|augs| - 1];
      AugmentAllSpec(lower, env, casings, init);
      forall k ensures k in AugmentAll(lower, env, casings, augs) <==>
                k in env || (lower(k) !in casings && LastNamed(augs, k).Some?) {
        if lower(a.0) in casings && a.0 == k && k !in env {
          assert lower(k) in casings;
        }
      }
    }
  }

  /** On Windows, a variable no augmentation names case-insensitively keeps its value. */
  lemma {:induction false} UnnamedVariablesKept(lower: LowerCase, env: Env, names: seq<string>, augs: seq<Augmentation>, k: string)
    requires ListsKeys(env, names)
    requires k in env
    requires forall i :: 0 <= i < |augs| ==> lower(augs[i].0) != lower(k)
    ensures k in AugmentEnv(lower, true, env, names, augs)
    ensures AugmentEnv(lower, true, env, names, augs)[k] == env[k]
  {
    var casings := Casings(lower, names);
    CasingsInEnv(lower, env, names);
    AugmentAllSpec(lower, env, casings, augs);
    NoWriter(lower, env, names, augs, k);
  }

  lemma {:induction false} NoWriter(lower: LowerCase, env: Env, names: seq<string>, augs: seq<Augmentation>, k: string)
    requires ListsKeys(env, names)
    requires forall i :: 0 <= i < |augs| ==> lower(augs[i].0) != lower(k)
    ensures LastWriter(lower, Casings(lower, names), augs, k) == None
    decreases |augs|
  {
    if |augs| > 0 {
      var casings := Casings(lower, names);
      CasingsGroupNames(lower, names);
      var a := augs[|augs| - 1];
      NoWriter(lower, env, names, augs[..|augs| - 1], k);
    }
  }

  lemma {:induction false} CasingsInEnv(lower: LowerCase, env: Env, names: seq<string>)
    requires ListsKeys(env, names)
    ensures forall l, i :: l in Casings(lower, names) && 0 <= i < |Casings(lower, names)[l]| ==> Casings(lower, names)[l][i] in env
  {
    CasingsGroupNames(lower, names);
    forall l, i | l in Casings(lower, names) && 0 <= i < |Casings(lower, names)[l]|
      ensures Casings(lower, names)[l][i] in env
    {
      WithLowerIsFromNames(lower, names, l, i);
    }
  }

  /** On Windows, an augmentation whose lower-case name matches existing
      variables (and is the last to do so) leaves every existing casing with
      its value and adds no new casing of its own name. */
  lemma {:induction false} MatchingNameSetsEveryCasing(lower: LowerCase, env: Env, names: seq<string>, augs: seq<Augmentation>, i: nat)
    requires ListsKeys(env, names)
    requires i < |augs|
    requires exists k :: k in env && lower(k) == lower(augs[i].0)
    requires forall j :: i < j < |augs| ==> lower(augs[j].0) != lower(augs[i].0)
    ensures forall k :: k in env && lower(k) == lower(augs[i].0) ==>
              k in AugmentEnv(lower, true, env, names, augs) && AugmentEnv(lower, true, env, names, augs)[k] == augs[i].1
    ensures augs[i].0 in AugmentEnv(lower, true, env, names, augs) <==> augs[i].0 in env
  {
    var casings := Casings(lower, names);
    var l := lower(augs[i].0);
    CasingsGroupNames(lower, names);
    CasingsInEnv(lower, env, names);
    AugmentAllSpec(lower, env, casings, augs);
    var k0 :| k0 in env && lower(k0) == l;
    assert l in casings by {
      var j :| 0 <= j < |names| && names[j] == k0;
    }
    forall k | k in env && lower(k) == l
      ensures k in AugmentEnv(lower, true, env, names, augs) && AugmentEnv(lower, true, env, names, augs)[k] == augs[i].1
    {
      var j :| 0 <= j < |names| && names[j] == k;
      WithLowerHas(lower, names, l, j);
      LastWriterIs(lower, env, names, augs, i, k);
    }
  }

  lemma {:induction false} WithLowerHas(lower: LowerCase, names: seq<string>, l: string, j: nat)
    requires j < |names| && lower(names[j]) == l
    ensures names[j] in WithLower(lower, names, l)
    decreases |names|
  {
    if j < |names| - 1 {
      WithLowerHas(lower, names[..|names| - 1], l, j);
    }
  }

  lemma {:induction false} LastWriterIs(lower: LowerCase, env: Env, names: seq<string>, augs: seq<Augmentation>, i: nat, k: string)
    requires ListsKeys(env, names)
    requires i < |augs|
    requires lower(augs[i].0) in Casings(lower, names) && k in Casings(lower, names)[lower(augs[i].0)]
    requires forall j :: i < j < |augs| ==> lower(augs[j].0) != lower(augs[i].0)
    ensures LastWriter(lower, Casings(lower, names), augs, k) == Some(augs[i].1)
    decreases |augs|
  {
    var casings := Casings(lower, names);
    var a := augs[|augs| - 1];
    if i < |augs| - 1 {
      CasingsGroupNames(lower, names);
      assert lower(k) == lower(augs[i].0);
      LastWriterIs(lower, env, names, augs[..|augs| - 1], i, k);
    }
  }

  /** On Windows, an augmentation whose lower-case name matches no variable
      (and is the last of its exact name) is added under the name as given. */
  lemma {:induction false} UnknownNameAdded(lower: LowerCase, env: Env, names: seq<string>, augs: seq<Augmentation>, i: nat)
    requires ListsKeys(env, names)
    requires i < |augs|
    requires forall k :: k in env ==> lower(k) != lower(augs[i].0)
    requires forall j :: i < j < |augs| ==> augs[j].0 != augs[i].0
    ensures augs[i].0 in AugmentEnv(lower, true, env, names, augs)
    ensures AugmentEnv(lower, true, env, names, augs)[augs[i].0] == augs[i].1
  {
    var casings := Casings(lower, names);
    var name := augs[i].0;
    CasingsGroupNames(lower, names);
    CasingsInEnv(lower, env, names);
    assert lower(name) !in casings;
    LastNamedIs(augs, i);
    AugmentAllSpec(lower, env, casings, augs);
    LastWriterUnknown(lower, env, names, augs, i);
  }

  lemma {:induction false} LastNamedIs(augs: seq<Augmentation>, i: nat)
    requires i < |augs|
    requires forall j :: i < j < |augs| ==> augs[j].0 != augs[i].0
    ensures LastNamed(augs, augs[i].0) == Some(augs[i].1)
    decreases |augs|
  {
    if i < |augs| - 1 {
      LastNamedIs(augs[..|augs| - 1], i);
    }
  }

  lemma {:induction false} LastWriterUnknown(lower: LowerCase, env: Env, names: seq<string>, augs: seq<Augmentation>, i: nat)
    requires ListsKeys(env, names)
    requires i < |augs|
    requires lower(augs[i].0) !in Casings(lower, names)
    requires forall j :: i < j < |augs| ==> augs[j].0 != augs[i].0
    ensures LastWriter(lower, Casings(lower, names), augs, augs[i].0) == Some(augs[i].1)
    decreases |augs|
  {
    var casings := Casings(lower, names);
    var a := augs[|augs| - 1];
    if i < |augs| - 1 {
      CasingsGroupNames(lower, names);
      LastWriterUnknown(lower, env, names, augs[..|augs| - 1], i);
    }
  }
}
