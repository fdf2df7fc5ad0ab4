/** lib/task.js: the tree of task entries the terminal renderer draws, and the
    lifecycle of one entry. A task's callback is modelled by what it does to
    its entry: a sequence of `update` calls and nested tasks, then either a
    normal return or a throw. The renderer singleton is left out. */
module Tasks {
  import opened Results

  /** The states an entry takes in this program. */
  datatype State = Pending | Loading | Success | Warning | Error

  datatype Entry = Entry(title: string, state: State, children: seq<Entry>, skip: bool)

  /** What a callback does, in order: `update({title, state})` (an absent or
      empty title is falsy), `await task(title, fn)`, or `await task.group(…)`
      over a list of titled callbacks. */
  datatype Action =
    | Update(newTitle: Option<string>, newState: Option<State>)
    | Nested(title: string, body: Body)
    | Grouped(tasks: seq<Job>)

  /** A callback: its actions, and whether it throws after them. */
  datatype Body = Body(actions: seq<Action>, throws: bool)

  /** A titled callback, as handed to `task` or created inside `task.group`. */
  datatype Job = Job(title: string, body: Body)

  /** The entry `register_task` pushes. */
  function Fresh(title: string): Entry
  {
    Entry(title, Pending, [], false)
  }

  /** `register_task`: exactly one fresh pending entry, at the end. */
  function Register(list: seq<Entry>, title: string): (r: seq<Entry>)
    ensures |r| == |list| + 1
    ensures r[..|list|] == list
    ensures r[|list|].title == title && r[|list|].state == Pending
    ensures r[|list|].children == [] && !r[|list|].skip
  {
    list + [Fresh(title)]
  }

  predicate Truthy(s: Option<string>)
  {
    s.Some? && s.value != ""
  }

  /** `update({title, state})`: each field is overwritten only by a truthy value. */
  function ApplyUpdate(e: Entry, title: Option<string>, state: Option<State>): (r: Entry)
    ensures r.title == (if Truthy(title) then title.value else e.title)
    ensures r.state == (if state.Some? then state.value else e.state)
    ensures r.children == e.children && r.skip == e.skip
  {
    var e1 := if Truthy(title) then e.(title := title.value) else e;
    if state.Some? then e1.(state := state.value) else e1
  }

  /** Performs a callback's actions on its entry; the flag says an awaited
      nested task threw, which stops the callback there. */
  function Perform(e: Entry, actions: seq<Action>): (r: (Entry, bool))
    decreases actions
  {
    if |actions| == 0 then (e, false)
    else match actions[0]
      case Update(t, s) => Perform(ApplyUpdate(e, t, s), actions[1..])
      case Nested(t, b) =>
        var (child, threw) := Run(Fresh(t), b);
        var e1 := e.(children := e.children + [child]);
        if threw then (e1, true) else Perform(e1, actions[1..])
      case Grouped(ts) =>
        var (children, threw) := Group(e.children, ts);
        var e1 := e.(children := children);
        if threw then (e1, true) else Perform(e1, actions[1..])
  }

  /** `run()`: the entry goes to `loading`, the callback runs, and only if it
      returns with the entry still `loading` is it promoted to `success`.
      The flag says the callback threw. */
  function Run(e: Entry, body: Body): (r: (Entry, bool))
    ensures body.throws ==> r.1
    ensures !r.1 ==> r.0.state != Loading
    decreases body
  {
    var (e1, threw) := Perform(e.(state := Loading), body.actions);
    if threw || body.throws then (e1, true)
    else if e1.state == Loading then (e1.(state := Success), false)
    else (e1, false)
  }

  /** Whether no nested task anywhere in `actions` throws. */
  predicate NoNestedThrow(actions: seq<Action>)
    decreases actions
  {
    forall i :: 0 <= i < |actions| ==>
      match actions[i]
      case Update(_, _) => true
      case Nested(_, b) => !b.throws && NoNestedThrow(b.actions)
      case Grouped(ts) => NoneThrows(ts)
  }

  /** Whether no callback of a group, nor any task nested in one, throws. */
  predicate NoneThrows(ts: seq<Job>)
    decreases ts
  {
    forall j :: 0 <= j < |ts| ==> !ts[j].body.throws && NoNestedThrow(ts[j].body.actions)
  }

  /** The last state a sequence of updates sets, if any. */
  function LastState(actions: seq<Action>): Option<State>
  {
    if |actions| == 0 then None
    else match actions[|actions| - 1]
      case Update(_, Some(s)) => Some(s)
      case _ => LastState(actions[..|actions| - 1])
  }

  /** The last truthy title a sequence of updates sets, if any. */
  function LastTitle(actions: seq<Action>): Option<string>
  {
    if |actions| == 0 then None
    else match actions[|actions| - 1]
      case Update(t, _) => if Truthy(t) then t else LastTitle(actions[..|actions| - 1])
      case _ => LastTitle(actions[..|actions| - 1])
  }

  /** The nested tasks, in order. */
  function NestedTasks(actions: seq<Action>): seq<Job>
  {
    if |actions| == 0 then []
    else match actions[|actions| - 1]
      case Nested(t, b) => NestedTasks(actions[..|actions| - 1]) + [Job(t, b)]
      case Grouped(ts) => NestedTasks(actions[..|actions| - 1]) + ts
      case _ => NestedTasks(actions[..|actions| - 1])
  }

  /** What performing all of `actions` on `e` yields: no abort, the last state
      and title set, and one new child per nested task, in order, each as its
      own run leaves it. */
  ghost predicate PerformsAll(e: Entry, actions: seq<Action>)
  {
    var r := Perform(e, actions);
    && !r.1
    && r.0.state == LastState(actions).GetOr(e.state)
    && r.0.title == LastTitle(actions).GetOr(e.title)
    && |r.0.children| == |e.children| + |NestedTasks(actions)|
    && r.0.children[..|e.children|] == e.children
    && forall i :: 0 <= i < |NestedTasks(actions)| ==>
         r.0.children[|e.children| + i]
         == Run(Fresh(NestedTasks(actions)[i].title), NestedTasks(actions)[i].body).0
  }

  /** When no nested task throws, a callback performs every action. */
  lemma {:induction false} PerformAll(e: Entry, actions: seq<Action>)
    requires NoNestedThrow(actions)
    ensures PerformsAll(e, actions)
    decreases actions, 1
  {
    if |actions| > 0 {
      match actions[|actions| - 1]
      case Update(t, s) => PerformAllUpdate(e, actions, t, s);
      case Nested(t, b) => PerformAllNested(e, actions, t, b);
      case Grouped(ts) => PerformAllGrouped(e, actions, ts);
    }
  }

  lemma {:induction false} NoNestedThrowInit(init: seq<Action>, last: Action)
    requires NoNestedThrow(init + [last])
    ensures NoNestedThrow(init)
  {
    forall i | 0 <= i < |init| ensures
      match init[i]
      case Update(_, _) => true
      case Nested(_, b) => !b.throws && NoNestedThrow(b.actions)
      case Grouped(ts) => NoneThrows(ts)
    {
      assert init[i] == (init + [last])[i];
    }
  }

  lemma {:induction false} PerformAllUpdate(e: Entry, actions: seq<Action>, t: Option<string>, s: Option<State>)
    requires |actions| > 0 && actions[|actions| - 1] == Update(t, s)
    requires NoNestedThrow(actions)
    ensures PerformsAll(e, actions)
    decreases actions, 0
  {
    var init := actions[..|actions| - 1];
    var last := Update(t, s);
    assert actions == init + [last];
    NoNestedThrowInit(init, last);
    PerformAll(e, init);
    PerformSnoc(e, init, last);
    var mid := Perform(e, init).0;
    assert [last][1..] == [];
    assert Perform(mid, [last]) == Perform(ApplyUpdate(mid, t, s), []);
  }

  lemma {:induction false} PerformAllNested(e: Entry, actions: seq<Action>, t: string, b: Body)
    requires |actions| > 0 && actions[|actions| - 1] == Nested(t, b)
    requires NoNestedThrow(actions)
    ensures PerformsAll(e, actions)
    decreases actions, 0
  {
    var init := actions[..|actions| - 1];
    var last := Nested(t, b);
    assert actions == init + [last];
    NoNestedThrowInit(init, last);
    PerformAll(e, init);
    PerformSnoc(e, init, last);
    var mid := Perform(e, init).0;
    assert [last][1..] == [];
    PerformAll(Fresh(t).(state := Loading), b.actions);
    assert !Run(Fresh(t), b).1;
    var child := Run(Fresh(t), b).0;
    assert actions[..|init|] == init;
    assert NestedTasks(actions) == NestedTasks(init) + [Job(t, b)];
    assert Perform(e, actions).0.children == mid.children + [child];
  }

  lemma {:induction false} PerformAllGrouped(e: Entry, actions: seq<Action>, ts: seq<Job>)
    requires |actions| > 0 && actions[|actions| - 1] == Grouped(ts)
    requires NoNestedThrow(actions)
    ensures PerformsAll(e, actions)
    decreases actions, 0
  {
    var init := actions[..|actions| - 1];
    var last := Grouped(ts);
    assert actions == init + [last];
    NoNestedThrowInit(init, last);
    PerformAll(e, init);
    PerformSnoc(e, init, last);
    var mid := Perform(e, init).0;
    assert [last][1..] == [];
    GroupRunsAll(mid.children, ts);
    assert actions[..|init|] == init;
    assert NestedTasks(actions) == NestedTasks(init) + ts;
  }

  /** A callback whose nested tasks do not throw, and that does not throw, returns normally. */
  lemma {:induction false} RunNoThrow(e: Entry, body: Body)
    requires !body.throws && NoNestedThrow(body.actions)
    ensures !Run(e, body).1
    decreases body
  {
    PerformAll(e.(state := Loading), body.actions);
  }

  /** Performing one more action after a prefix that did not abort. */
  lemma {:induction false} PerformSnoc(e: Entry, init: seq<Action>, last: Action)
    requires !Perform(e, init).1
    ensures Perform(e, init + [last]) == Perform(Perform(e, init).0, [last])
    decreases |init|
  {
    if |init| > 0 {
      assert (init + [last])[0] == init[0];
      assert (init + [last])[1..] == init[1..] + [last];
      match init[0]
      case Update(t, s) =>
        PerformSnoc(ApplyUpdate(e, t, s), init[1..], last);
      case Nested(t, b) =>
        var (child, threw) := Run(Fresh(t), b);
        PerformSnoc(e.(children := e.children + [child]), init[1..], last);
      case Grouped(ts) =>
        var (children, threw) := Group(e.children, ts);
        PerformSnoc(e.(children := children), init[1..], last);
    } else {
      assert init + [last] == [last];
    }
  }

  /** After a normal return, the entry is `success` exactly when the callback
      left it `loading`, and a state the callback set is kept; its title is
      the last one set, and its children are the nested tasks, in order,
      each as its own run leaves it. */
  lemma {:induction false} RunPromotes(e: Entry, body: Body)
    requires !body.throws && NoNestedThrow(body.actions)
    ensures var r := Run(e, body);
      && !r.1
      && r.0.state == (if LastState(body.actions).GetOr(Loading) == Loading then Success
                       else LastState(body.actions).GetOr(Loading))
      && r.0.title == LastTitle(body.actions).GetOr(e.title)
      && |r.0.children| == |e.children| + |NestedTasks(body.actions)|
      && r.0.children[..|e.children|] == e.children
      && (forall i :: 0 <= i < |NestedTasks(body.actions)| ==>
            r.0.children[|e.children| + i]
            == Run(Fresh(NestedTasks(body.actions)[i].title), NestedTasks(body.actions)[i].body).0)
      && r.0.skip == e.skip
  {
    PerformAll(e.(state := Loading), body.actions);
    PerformKeepsSkip(e.(state := Loading), body.actions);
  }

  lemma {:induction false} PerformKeepsSkip(e: Entry, actions: seq<Action>)
    ensures Perform(e, actions).0.skip == e.skip
    decreases actions
  {
    if |actions| > 0 {
      match actions[0]
      case Update(t, s) => PerformKeepsSkip(ApplyUpdate(e, t, s), actions[1..]);
      case Nested(t, b) =>
        var (child, threw) := Run(Fresh(t), b);
        PerformKeepsSkip(e.(children := e.children + [child]), actions[1..]);
      case Grouped(ts) =>
        var (children, threw) := Group(e.children, ts);
        PerformKeepsSkip(e.(children := children), actions[1..]);
    }
  }

  /** A throwing callback propagates its error and the entry is not promoted:
      it keeps the last state set, `loading` if none. */
  lemma {:induction false} RunThrows(e: Entry, body: Body)
    requires body.throws && NoNestedThrow(body.actions)
    ensures Run(e, body).1
    ensures Run(e, body).0.state == LastState(body.actions).GetOr(Loading)
  {
    PerformAll(e.(state := Loading), body.actions);
  }

  /** `task.group`: registers an entry for every task first, then runs them
      one at a time in list order; a throw stops the loop and propagates. */
  function Group(list: seq<Entry>, tasks: seq<Job>): (r: (seq<Entry>, bool))
    ensures |r.0| == |list| + |tasks|
    decreases tasks
  {
    RunFrom(RegisterAll(list, tasks), |list|, tasks, 0)
  }

  function RegisterAll(list: seq<Entry>, tasks: seq<Job>): (r: seq<Entry>)
    ensures |r| == |list| + |tasks| && r[..|list|] == list
    ensures forall i :: 0 <= i < |tasks| ==> r[|list| + i] == Fresh(tasks[i].title)
  {
    if |tasks| == 0 then list
    else
      var r := RegisterAll(list, tasks[..|tasks| - 1]);
      assert r[..|list|] == list;
      Register(r, tasks[|tasks| - 1].title)
  }

  /** Runs `tasks[i..]`, whose entries start at `list[base + i]`. */
  function RunFrom(list: seq<Entry>, base: nat, tasks: seq<Job>, i: nat): (r: (seq<Entry>, bool))
    requires base + |tasks| <= |list| && i <= |tasks|
    ensures |r.0| == |list|
    decreases tasks, |tasks| - i
  {
    if i == |tasks| then (list, false)
    else
      var (entry, threw) := Run(list[base + i], tasks[i].body);
      var list1 := list[base + i := entry];
      if threw then (list1, true) else RunFrom(list1, base, tasks, i + 1)
  }

  /** When the task at `j` is the first to throw, every entry after it stays
      registered but `pending`: its callback is never called. Entries before
      the group are untouched. */
  lemma {:induction false} GroupStopsAtThrow(list: seq<Entry>, tasks: seq<Job>, j: nat)
    requires j < |tasks|
    requires forall i :: 0 <= i < j ==> !tasks[i].body.throws && NoNestedThrow(tasks[i].body.actions)
    requires tasks[j].body.throws
    ensures Group(list, tasks).1
    ensures |Group(list, tasks).0| == |list| + |tasks|
    ensures Group(list, tasks).0[..|list|] == list
    ensures forall i :: j < i < |tasks| ==> Group(list, tasks).0[|list| + i] == Fresh(tasks[i].title)
  {
    RunFromStops(RegisterAll(list, tasks), |list|, tasks, 0, j);
  }

  lemma {:induction false} RunFromStops(list: seq<Entry>, base: nat, tasks: seq<Job>, i: nat, j: nat)
    requires base + |tasks| <= |list| && i <= j < |tasks|
    requires forall k :: i <= k < j ==> !tasks[k].body.throws && NoNestedThrow(tasks[k].body.actions)
    requires tasks[j].body.throws
    ensures RunFrom(list, base, tasks, i).1
    ensures RunFrom(list, base, tasks, i).0[..base] == list[..base]
    ensures forall m :: base + j < m < base + |tasks| ==> RunFrom(list, base, tasks, i).0[m] == list[m]
    decreases |tasks| - i
  {
    var (entry, threw) := Run(list[base + i], tasks[i].body);
    var list1 := list[base + i := entry];
    assert list1[..base] == list[..base];
    if i < j {
      RunNoThrow(list[base + i], tasks[i].body);
      RunFromStops(list1, base, tasks, i + 1, j);
    }
  }

  /** When no task of the group throws, every entry ends as its own run leaves it. */
  lemma {:induction false} GroupRunsAll(list: seq<Entry>, tasks: seq<Job>)
    requires NoneThrows(tasks)
    ensures !Group(list, tasks).1
    ensures Group(list, tasks).0[..|list|] == list
    ensures forall i :: 0 <= i < |tasks| ==> Group(list, tasks).0[|list| + i] == Run(Fresh(tasks[i].title), tasks[i].body).0
    decreases tasks, |tasks| + 1
  {
    var registered := RegisterAll(list, tasks);
    RunFromAll(registered, |list|, tasks, 0);
    var out := RunFrom(registered, |list|, tasks, 0).0;
    assert Group(list, tasks).0 == out;
    assert registered[..|list|] == list;
    forall i | 0 <= i < |tasks|
      ensures out[|list| + i] == Run(Fresh(tasks[i].title), tasks[i].body).0
    {
      assert out[|list| + i] == Run(registered[|list| + i], tasks[i].body).0;
      assert registered[|list| + i] == Fresh(tasks[i].title);
    }
  }

  lemma {:induction false} RunFromAll(list: seq<Entry>, base: nat, tasks: seq<Job>, i: nat)
    requires base + |tasks| <= |list| && i <= |tasks|
    requires forall k :: i <= k < |tasks| ==> !tasks[k].body.throws && NoNestedThrow(tasks[k].body.actions)
    ensures !RunFrom(list, base, tasks, i).1
    ensures RunFrom(list, base, tasks, i).0[..base] == list[..base]
    ensures forall m :: base <= m < base + i ==> RunFrom(list, base, tasks, i).0[m] == list[m]
    ensures forall k :: i <= k < |tasks| ==> RunFrom(list, base, tasks, i).0[base + k] == Run(list[base + k], tasks[k].body).0
    decreases tasks, |tasks| - i
  {
    if i < |tasks| {
      var (entry, threw) := Run(list[base + i], tasks[i].body);
      RunNoThrow(list[base + i], tasks[i].body);
      var list1 := list[base + i := entry];
      assert list1[..base] == list[..base];
      RunFromAll(list1, base, tasks, i + 1);
    }
  }
}
