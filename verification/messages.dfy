/** The failure texts both runners build: one line per failed command,
    `<pattern> > <title>:` then the trimmed output, and the aggregate error
    whose data is those messages joined by blank lines. Colours are identity. */
module Messages {
  import opened Strings

  /** `${c.red(pattern)} ${c.dim('>')} ${title}:\n${output.trim()}`. */
  function FailureMessage(pattern: string, title: string, output: string): string
  {
    pattern + " > " + title + ":\n" + Trim(output)
  }

  /** The `data` of the aggregate `NanoStagedError`: `\n${errors.join('\n\n')}\n`. */
  function OutputData(errors: seq<string>): string
  {
    "\n" + Join(errors, "\n\n") + "\n"
  }

  /** `order` lists every index below `n` exactly once: one completion order
      of `n` promises run together by `Promise.all`. */
  predicate IsCompletionOrder(order: seq<nat>, n: nat)
  {
    && |order| == n
    && (forall j :: 0 <= j < |order| ==> order[j] < n)
    && (forall i :: 0 <= i < n ==> i in order)
    && (forall a, b :: 0 <= a < b < |order| ==> order[a] != order[b])
  }

  /** Concatenates per-promise message lists in completion order. */
  function Collect(perGroup: seq<seq<string>>, order: seq<nat>): seq<string>
    requires forall j :: 0 <= j < |order| ==> order[j] < |perGroup|
  {
    if |order| == 0 then []
    else Collect(perGroup, order[..|order| - 1]) + perGroup[order[|order| - 1]]
  }

  /** The collected list is empty exactly when every listed promise
      contributed nothing. */
  lemma {:induction false} CollectEmpty(perGroup: seq<seq<string>>, order: seq<nat>)
    requires forall j :: 0 <= j < |order| ==> order[j] < |perGroup|
    ensures |Collect(perGroup, order)| == 0 <==> forall j :: 0 <= j < |order| ==> perGroup[order[j]] == []
    decreases |order|
  {
    if |order| > 0 {
      CollectEmpty(perGroup, order[..|order| - 1]);
      var init := order[..|order| - 1];
      assert forall j :: 0 <= j < |init| ==> init[j] == order[j];
    }
  }

  /** The sum of the lengths of the listed promises' contributions. */
  function TotalLength(perGroup: seq<seq<string>>, order: seq<nat>): nat
    requires forall j :: 0 <= j < |order| ==> order[j] < |perGroup|
  {
    if |order| == 0 then 0
    else |perGroup[order[0]]| + TotalLength(perGroup, order[1..])
  }

  /** The collected list's length is the sum of the contributions' lengths. */
  lemma {:induction false} CollectLength(perGroup: seq<seq<string>>, order: seq<nat>)
    requires forall j :: 0 <= j < |order| ==> order[j] < |perGroup|
    ensures |Collect(perGroup, order)| == TotalLength(perGroup, order)
    decreases |order|
  {
    if |order| > 0 {
      var init := order[..|order| - 1];
      CollectLength(perGroup, init);
      TotalLengthSnoc(perGroup, init, order[|order| - 1]);
      assert init + [order[|order| - 1]] == order;
    }
  }

  /** Adding one contribution at the end adds its length. */
  lemma {:induction false} TotalLengthSnoc(perGroup: seq<seq<string>>, order: seq<nat>, last: nat)
    requires forall j :: 0 <= j < |order| ==> order[j] < |perGroup|
    requires last < |perGroup|
    ensures TotalLength(perGroup, order + [last]) == TotalLength(perGroup, order) + |perGroup[last]|
    decreases |order|
  {
    if |order| > 0 {
      assert (order + [last])[1..] == order[1..] + [last];
      TotalLengthSnoc(perGroup, order[1..], last);
    }
  }
}
