/**
 * The batch executor: runs a function on every item, turns an exception
 * into a failed task result, reports each completion to optional callbacks
 * and returns the results in input order. The thread pool is replaced by
 * its observable effect, an order in which the tasks complete.
 */
module Parallel {
  import opened Common

  /** `TaskResult(item, success, result, error)` */
  datatype TaskResult<T, R> = TaskResult(item: T, success: bool, result: Option<R>, error: Option<string>)

  /** A callback invocation: `on_result(task_result)` or `on_progress(completed, total, item, task_result)`. */
  datatype Event<T, R> =
    | OnResult(task: TaskResult<T, R>)
    | OnProgress(completed: nat, total: nat, item: T, task: TaskResult<T, R>)

  /** `order` lists each position of an `n`-item batch exactly once. */
  predicate IsCompletionOrder(order: seq<nat>, n: nat)
  {
    |order| == n
    && (forall k :: 0 <= k < |order| ==> order[k] < n)
    && (forall j :: 0 <= j < n ==> j in order)
    && (forall a, b :: 0 <= a < b < |order| ==> order[a] != order[b])
  }

  /** `_execute_single(func, item)`: a raised exception becomes a failure carrying its message. */
  function ExecuteSingle<T, R>(func: T -> Attempt<R>, item: T): (tr: TaskResult<T, R>)
    ensures tr.item == item
    ensures tr.success <==> func(item).Ok?
    ensures tr.success ==> tr.result == Some(func(item).value) && tr.error.None?
    ensures !tr.success ==> tr.result.None? && tr.error == Some(func(item).message)
  {
    match func(item)
    case Ok(v) => TaskResult(item, true, Some(v), None)
    case Raised(e) => TaskResult(item, false, None, Some(e))
  }

  /** The callbacks fired when the `k`-th completion (counting from 0) arrives. */
  function StepEvents<T, R>(func: T -> Attempt<R>, items: seq<T>, order: seq<nat>, k: nat,
                            onResult: bool, onProgress: bool): seq<Event<T, R>>
    requires k < |order| && order[k] < |items|
  {
    var tr := ExecuteSingle(func, items[order[k]]);
    (if onResult then [OnResult(tr)] else [])
    + (if onProgress then [OnProgress(k + 1, |items|, items[order[k]], tr)] else [])
  }

  /** The callbacks fired by the first `k` completions, in the order they fire. */
  function Trace<T, R>(func: T -> Attempt<R>, items: seq<T>, order: seq<nat>, k: nat,
                       onResult: bool, onProgress: bool): seq<Event<T, R>>
    requires k <= |order| && forall t :: 0 <= t < |order| ==> order[t] < |items|
  {
    if k == 0 then []
    else Trace(func, items, order, k - 1, onResult, onProgress)
         + StepEvents(func, items, order, k - 1, onResult, onProgress)
  }

  /**
   * `execute(func, items, on_progress, on_result)` with the tasks completing
   * in `order`. The result holds one task result per item, in input order;
   * the callbacks fired are those of the completions in `order`.
   */
  method Execute<T, R>(func: T -> Attempt<R>, items: seq<T>, order: seq<nat>, onResult: bool, onProgress: bool)
    returns (out: seq<TaskResult<T, R>>, events: seq<Event<T, R>>)
    requires IsCompletionOrder(order, |items|)
    ensures |out| == |items|
    ensures forall i :: 0 <= i < |items| ==> out[i] == ExecuteSingle(func, items[i])
    ensures events == Trace(func, items, order, |order|, onResult, onProgress)
  {
    events := [];
    if |items| == 0 {
      return [], events;
    }
    var total := |items|;
    var results: map<nat, TaskResult<T, R>> := map[];
    var completedCount := 0;
    for k := 0 to |order|
      invariant completedCount == k
      invariant forall t :: 0 <= t < k ==> order[t] in results
      invariant forall j :: j in results ==> j < |items| && results[j] == ExecuteSingle(func, items[j])
      invariant events == Trace(func, items, order, k, onResult, onProgress)
    {
      var index := order[k];
      var item := items[index];
      var taskResult := ExecuteSingle(func, item);
      results := results[index := taskResult];
      completedCount := completedCount + 1;
      if onResult {
        events := events + [OnResult(taskResult)];
      }
      if onProgress {
        events := events + [OnProgress(completedCount, total, item, taskResult)];
      }
    }
    assert forall i :: 0 <= i < |items| ==> i in results by {
      forall i | 0 <= i < |items|
        ensures i in results
      {
        assert i in order;
        var t :| 0 <= t < |order| && order[t] == i;
      }
    }
    out := seq(|items|, i requires 0 <= i < |items| && i in results => results[i]);
  }

  /** `map(func, items)`: the value of each success and `None` for each failure, in input order. */
  method Map<T, R>(func: T -> Attempt<R>, items: seq<T>, order: seq<nat>) returns (rs: seq<Option<R>>)
    requires IsCompletionOrder(order, |items|)
    ensures |rs| == |items|
    ensures forall i :: 0 <= i < |items| ==>
      rs[i] == (if func(items[i]).Ok? then Some(func(items[i]).value) else None)
  {
    var taskResults, _ := Execute(func, items, order, false, false);
    rs := seq(|taskResults|, i requires 0 <= i < |taskResults| =>
      if taskResults[i].success then taskResults[i].result else None);
  }

  /** The task results handed to `on_result`, in the order they were handed over. */
  function Reported<T, R>(events: seq<Event<T, R>>): seq<TaskResult<T, R>>
  {
    if events == [] then []
    else Reported(events[..|events| - 1])
         + (if events[|events| - 1].OnResult? then [events[|events| - 1].task] else [])
  }

  lemma {:induction false} ReportedAppend<T, R>(a: seq<Event<T, R>>, b: seq<Event<T, R>>)
    ensures Reported(a + b) == Reported(a) + Reported(b)
    decreases |b|
  {
    if b != [] {
      assert (a + b)[..|a + b| - 1] == a + b[..|b| - 1];
      ReportedAppend(a, b[..|b| - 1]);
    } else {
      assert a + b == a;
    }
  }

  /** The `t`-th completion's task result. */
  function Completed<T, R>(func: T -> Attempt<R>, items: seq<T>, order: seq<nat>, k: nat): (s: seq<TaskResult<T, R>>)
    requires k <= |order| && forall t :: 0 <= t < |order| ==> order[t] < |items|
    ensures |s| == k
    ensures forall t :: 0 <= t < k ==> s[t] == ExecuteSingle(func, items[order[t]])
  {
    seq(k, t requires 0 <= t < k => ExecuteSingle(func, items[order[t]]))
  }

  /** With `on_result` set, it receives the task results in completion order, one per completion. */
  lemma {:induction false} ReportedInCompletionOrder<T, R>(func: T -> Attempt<R>, items: seq<T>, order: seq<nat>,
                                                           k: nat, onProgress: bool)
    requires k <= |order| && forall t :: 0 <= t < |order| ==> order[t] < |items|
    ensures Reported(Trace(func, items, order, k, true, onProgress)) == Completed(func, items, order, k)
  {
    if k > 0 {
      ReportedInCompletionOrder(func, items, order, k - 1, onProgress);
      var prev := Trace(func, items, order, k - 1, true, onProgress);
      var step := StepEvents(func, items, order, k - 1, true, onProgress);
      ReportedAppend(prev, step);
      StepReported(func, items, order, k - 1, onProgress);
      assert Completed(func, items, order, k)
             == Completed(func, items, order, k - 1) + [ExecuteSingle(func, items[order[k - 1]])];
    }
  }

  /** One completion with `on_result` set hands over exactly its task result. */
  lemma StepReported<T, R>(func: T -> Attempt<R>, items: seq<T>, order: seq<nat>, k: nat, onProgress: bool)
    requires k < |order| && order[k] < |items|
    ensures Reported(StepEvents(func, items, order, k, true, onProgress)) == [ExecuteSingle(func, items[order[k]])]
  {
    var tr := ExecuteSingle(func, items[order[k]]);
    var progress: seq<Event<T, R>> := if onProgress then [OnProgress(k + 1, |items|, items[order[k]], tr)] else [];
    ReportedAppend([OnResult(tr)], progress);
    assert Reported([OnResult(tr)]) == [tr] by {
      assert [OnResult(tr)][..0] == [];
    }
    if onProgress {
      assert Reported(progress) == [] by {
        assert progress[..0] == [];
      }
    }
  }

  /** `[s[k] for k in order]` */
  function Reorder<X>(s: seq<X>, order: seq<nat>): (r: seq<X>)
    requires forall k :: 0 <= k < |order| ==> order[k] < |s|
    ensures |r| == |order|
    ensures forall k :: 0 <= k < |order| ==> r[k] == s[order[k]]
  {
    seq(|order|, k requires 0 <= k < |order| => s[order[k]])
  }

  /** Removing the last position from a completion order leaves one for the shorter batch. */
  lemma DropLastPosition(order: seq<nat>, n: nat, p: nat)
    requires n > 0 && IsCompletionOrder(order, n) && p < |order| && order[p] == n - 1
    ensures IsCompletionOrder(order[..p] + order[p + 1..], n - 1)
  {
    var order' := order[..p] + order[p + 1..];
    assert forall k :: 0 <= k < |order'| ==> order'[k] == (if k < p then order[k] else order[k + 1]);
    forall k | 0 <= k < |order'|
      ensures order'[k] < n - 1
    {
      if k < p {
        assert order[k] != order[p];
      } else {
        assert order[k + 1] != order[p];
      }
    }
    forall j | 0 <= j < n - 1
      ensures j in order'
    {
      assert j in order;
      var t :| 0 <= t < |order| && order[t] == j;
      if t < p {
        assert order'[t] == j;
      } else {
        assert order'[t - 1] == j;
      }
    }
  }

  /** Reordering by a completion order keeps the multiset of elements. */
  lemma {:induction false} ReorderKeepsMultiset<X>(s: seq<X>, order: seq<nat>)
    requires IsCompletionOrder(order, |s|)
    ensures multiset(Reorder(s, order)) == multiset(s)
    decreases |s|
  {
    if |s| > 0 {
      var order' := ReorderStep(s, order);
      ReorderKeepsMultiset(s[..|s| - 1], order');
      SpliceMultiset(s[..|s| - 1], |s| - 1, s[|s| - 1]);
      assert s == s[..|s| - 1][..|s| - 1] + [s[|s| - 1]] + s[..|s| - 1][|s| - 1..];
    }
  }

  /** Taking the last position out of a completion order takes the last element out of the reordering. */
  lemma ReorderStep<X>(s: seq<X>, order: seq<nat>) returns (order': seq<nat>)
    requires |s| > 0 && IsCompletionOrder(order, |s|)
    ensures IsCompletionOrder(order', |s| - 1)
    ensures multiset(Reorder(s, order)) == multiset(Reorder(s[..|s| - 1], order')) + multiset{s[|s| - 1]}
  {
    var n := |s|;
    assert n - 1 in order;
    var p :| 0 <= p < |order| && order[p] == n - 1;
    order' := order[..p] + order[p + 1..];
    DropLastPosition(order, n, p);
    var re' := Reorder(s[..n - 1], order');
    assert Reorder(s, order) == re'[..p] + [s[n - 1]] + re'[p..];
    SpliceMultiset(re', p, s[n - 1]);
  }

  lemma SpliceMultiset<X>(a: seq<X>, p: nat, x: X)
    requires p <= |a|
    ensures multiset(a[..p] + [x] + a[p..]) == multiset(a) + multiset{x}
  {
    assert a == a[..p] + a[p..];
  }

  /** The task result of every item, in input order. */
  function AllResults<T, R>(func: T -> Attempt<R>, items: seq<T>): (s: seq<TaskResult<T, R>>)
    ensures |s| == |items|
    ensures forall i :: 0 <= i < |items| ==> s[i] == ExecuteSingle(func, items[i])
  {
    seq(|items|, i requires 0 <= i < |items| => ExecuteSingle(func, items[i]))
  }

  /**
   * Exactly once per item: whatever the completion order, `on_result`
   * receives every task result of the batch once, as a multiset.
   */
  lemma OnResultOncePerItem<T, R>(func: T -> Attempt<R>, items: seq<T>, order: seq<nat>, onProgress: bool)
    requires IsCompletionOrder(order, |items|)
    ensures multiset(Reported(Trace(func, items, order, |order|, true, onProgress)))
         == multiset(AllResults(func, items))
  {
    var all := AllResults(func, items);
    ReportedInCompletionOrder(func, items, order, |order|, onProgress);
    ReorderKeepsMultiset(all, order);
    assert Completed(func, items, order, |order|) == Reorder(all, order);
  }

  /**
   * With both callbacks set, each completion fires `on_result` and then
   * `on_progress` for the same item, and the completed counter runs 1, 2, ..., n.
   */
  lemma {:induction false} TraceShape<T, R>(func: T -> Attempt<R>, items: seq<T>, order: seq<nat>, n: nat)
    requires n <= |order| && forall t :: 0 <= t < |order| ==> order[t] < |items|
    ensures var trace := Trace(func, items, order, n, true, true);
      |trace| == 2 * n
      && forall k :: 0 <= k < n ==>
           trace[2 * k] == OnResult(ExecuteSingle(func, items[order[k]]))
           && trace[2 * k + 1] == OnProgress(k + 1, |items|, items[order[k]], ExecuteSingle(func, items[order[k]]))
  {
    if n > 0 {
      TraceShape(func, items, order, n - 1);
    }
  }
}
