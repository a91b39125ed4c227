/** `parallel/utils/result_handler.py`: the append-only history of result
    records kept per task, and the summary folded from the latest record of
    each task. Python's dictionary keeps its keys in insertion order; the
    model keeps that order as a sequence `order` beside the map. */
module ResultHandler {
  import opened Wrappers
  import opened Json
  import opened Records

  type History = map<Json, seq<Record>>

  /** One value of `get_summary()['tasks']`. */
  datatype TaskSummary = TaskSummary(
    latestFps: real,
    totalIn: int,
    totalOut: int,
    currentCount: int,
    status: string,
    lastUpdate: string,
    totalUpdates: nat)

  /** `get_summary()['overall']`. */
  datatype Overall = Overall(totalIn: int, totalOut: int, netCount: int)

  datatype Summary = Summary(totalTasks: nat, tasks: map<Json, TaskSummary>, overall: Overall)

  /** Which of the two counters a total is taken over. */
  datatype Side = In | Out

  predicate Distinct(keys: seq<Json>) {
    forall i, j :: 0 <= i < j < |keys| ==> keys[i] != keys[j]
  }

  /** The summary entry of a task whose history is `h`, read off its last
      record with the defaults `0`, `'unknown'` and `''`. */
  function Summarize(h: seq<Record>): TaskSummary
    requires |h| > 0
  {
    var latest := h[|h| - 1];
    TaskSummary(latest.fps.GetOr(0.0), latest.totalIn.GetOr(0), latest.totalOut.GetOr(0),
                latest.currentCount.GetOr(0), latest.status.GetOr("unknown"),
                latest.timestamp.GetOr(""), |h|)
  }

  /** What a record contributes to the overall total of one side. */
  function Amount(r: Record, d: Side): int {
    match d
    case In => r.totalIn.GetOr(0)
    case Out => r.totalOut.GetOr(0)
  }

  /** What task `k` contributes to the overall total: its latest record's
      counter, or nothing when it has no history (the loop's `continue`). */
  function Latest(results: History, k: Json, d: Side): int {
    if k in results && |results[k]| > 0 then Amount(results[k][|results[k]| - 1], d) else 0
  }

  /** The overall total over the tasks `keys`, in that order. */
  function Total(results: History, keys: seq<Json>, d: Side): int
    decreases |keys|
  {
    if keys == [] then 0
    else Total(results, keys[..|keys| - 1], d) + Latest(results, keys[|keys| - 1], d)
  }

  /** The `tasks` part of the summary built over `keys`, in that order. */
  function TasksOver(results: History, keys: seq<Json>): map<Json, TaskSummary>
    decreases |keys|
  {
    if keys == [] then map[]
    else
      var rest := TasksOver(results, keys[..|keys| - 1]);
      var k := keys[|keys| - 1];
      if k in results && |results[k]| > 0 then rest[k := Summarize(results[k])] else rest
  }

  /** One more key extends the entries and the totals by that key's latest record. */
  lemma SummaryStep(results: History, keys: seq<Json>, i: nat)
    requires i < |keys| && keys[i] in results
    ensures var k := keys[i];
            var h := results[k];
            && TasksOver(results, keys[..i + 1]) ==
               (if |h| > 0 then TasksOver(results, keys[..i])[k := Summarize(h)] else TasksOver(results, keys[..i]))
            && Total(results, keys[..i + 1], In) == Total(results, keys[..i], In) + Latest(results, k, In)
            && Total(results, keys[..i + 1], Out) == Total(results, keys[..i], Out) + Latest(results, k, Out)
  {
    assert keys[..i + 1][..i] == keys[..i];
  }

  /** `get_summary()` for the dictionary `results` iterated in the order `keys`. */
  function SummaryOf(results: History, keys: seq<Json>): Summary {
    var tin := Total(results, keys, In);
    var tout := Total(results, keys, Out);
    Summary(|results|, TasksOver(results, keys), Overall(tin, tout, tin - tout))
  }

  /** A task appears in the summary exactly when it was iterated and has a
      non-empty history; its entry then counts that history and reads the
      latest record, with the source's defaults for missing fields. */
  lemma {:induction false} TasksOverEntries(results: History, keys: seq<Json>, k: Json)
    ensures k in TasksOver(results, keys) <==> (k in keys && k in results && |results[k]| > 0)
    ensures k in TasksOver(results, keys) ==>
      var e := TasksOver(results, keys)[k];
      var latest := results[k][|results[k]| - 1];
      && e.totalUpdates == |results[k]|
      && e.totalIn == latest.totalIn.GetOr(0)
      && e.totalOut == latest.totalOut.GetOr(0)
      && e.currentCount == latest.currentCount.GetOr(0)
      && (latest.status.None? ==> e.status == "unknown")
      && (latest.status.Some? ==> e.status == latest.status.value)
      && (latest.timestamp.None? ==> e.lastUpdate == "")
    decreases |keys|
  {
    if keys != [] {
      var init := keys[..|keys| - 1];
      TasksOverEntries(results, init, k);
      assert keys == init + [keys[|keys| - 1]];
      assert k in keys <==> k in init || k == keys[|keys| - 1];
    }
  }

  /** The totals over a concatenation add up. */
  lemma {:induction false} TotalAppend(results: History, a: seq<Json>, b: seq<Json>, d: Side)
    ensures Total(results, a + b, d) == Total(results, a, d) + Total(results, b, d)
    decreases |b|
  {
    if b == [] {
      assert a + b == a;
    } else {
      var b0 := b[..|b| - 1];
      assert (a + b)[..|a + b| - 1] == a + b0;
      assert (a + b)[|a + b| - 1] == b[|b| - 1];
      TotalAppend(results, a, b0, d);
    }
  }

  /** Dropping the element at `j` removes one copy of it from the multiset. */
  lemma DropAt(b: seq<Json>, j: nat)
    requires j < |b|
    ensures multiset(b[..j] + b[j + 1..]) == multiset(b) - multiset{b[j]}
  {
    assert b == b[..j] + [b[j]] + b[j + 1..];
    assert multiset(b) == multiset(b[..j]) + multiset{b[j]} + multiset(b[j + 1..]);
  }

  /** Dropping the task at `j` removes exactly its contribution. */
  lemma TotalDropAt(results: History, b: seq<Json>, j: nat, d: Side)
    requires j < |b|
    ensures Total(results, b, d) == Total(results, b[..j] + b[j + 1..], d) + Latest(results, b[j], d)
  {
    assert b == b[..j] + [b[j]] + b[j + 1..];
    TotalAppend(results, b[..j] + [b[j]], b[j + 1..], d);
    TotalAppend(results, b[..j], [b[j]], d);
    TotalAppend(results, b[..j], b[j + 1..], d);
    assert [b[j]][..0] == [];
  }

  /** Overall totals do not depend on the order in which the tasks are
      visited: any enumeration of the same keys gives the same sums. */
  lemma {:induction false} TotalPermutation(results: History, a: seq<Json>, b: seq<Json>, d: Side)
    requires multiset(a) == multiset(b)
    ensures Total(results, a, d) == Total(results, b, d)
    decreases |a|
  {
    if a == [] {
      assert |b| == |multiset(b)| == 0;
    } else {
      var x := a[|a| - 1];
      var a0 := a[..|a| - 1];
      var j := MatchLast(a, b);
      var b0 := b[..j] + b[j + 1..];
      TotalPermutation(results, a0, b0, d);
      TotalDropAt(results, b, j, d);
      assert Total(results, a, d) == Total(results, a0, d) + Latest(results, x, d);
    }
  }

  /** The last of `a` sits somewhere in any permutation `b`, and the rests
      are permutations of each other. */
  lemma MatchLast(a: seq<Json>, b: seq<Json>) returns (j: nat)
    requires multiset(a) == multiset(b) && a != []
    ensures j < |b| && b[j] == a[|a| - 1]
    ensures multiset(a[..|a| - 1]) == multiset(b[..j] + b[j + 1..])
  {
    var x := a[|a| - 1];
    var a0 := a[..|a| - 1];
    assert a == a0 + [x];
    assert multiset(a0) == multiset(a) - multiset{x};
    assert x in multiset(b);
    j :| 0 <= j < |b| && b[j] == x;
    DropAt(b, j);
  }

  /** A total over keys that do not include `t` ignores `t`'s history. */
  lemma {:induction false} TotalIgnores(results: History, keys: seq<Json>, t: Json, h: seq<Record>, d: Side)
    requires t !in keys
    ensures Total(results[t := h], keys, d) == Total(results, keys, d)
    decreases |keys|
  {
    if keys != [] {
      var init := keys[..|keys| - 1];
      assert keys == init + [keys[|keys| - 1]];
      TotalIgnores(results, init, t, h, d);
    }
  }

  /** Appending a record to task `t` replaces `t`'s contribution to the
      overall total by the new record's counter, since only the latest
      record of each task is summed. */
  lemma {:induction false} TotalAfterAppend(results: History, keys: seq<Json>, t: Json, r: Record, d: Side)
    requires Distinct(keys) && t in keys
    ensures var old_h := if t in results then results[t] else [];
      Total(results[t := old_h + [r]], keys, d) == Total(results, keys, d) - Latest(results, t, d) + Amount(r, d)
    decreases |keys|
  {
    var old_h := if t in results then results[t] else [];
    var updated := results[t := old_h + [r]];
    var init := keys[..|keys| - 1];
    var k := keys[|keys| - 1];
    DistinctInit(keys);
    assert Total(updated, keys, d) == Total(updated, init, d) + Latest(updated, k, d);
    assert Total(results, keys, d) == Total(results, init, d) + Latest(results, k, d);
    if k == t {
      assert (old_h + [r])[|old_h|] == r;
      assert Latest(updated, k, d) == Amount(r, d);
      TotalIgnores(results, init, t, old_h + [r], d);
    } else {
      assert Latest(updated, k, d) == Latest(results, k, d);
      assert t in init by {
        assert t in keys;
      }
      TotalAfterAppend(results, init, t, r, d);
    }
  }

  /** Dropping the last of distinct keys leaves distinct keys without it. */
  lemma DistinctInit(keys: seq<Json>)
    requires Distinct(keys) && keys != []
    ensures Distinct(keys[..|keys| - 1])
    ensures keys[|keys| - 1] !in keys[..|keys| - 1]
  {
    var init := keys[..|keys| - 1];
    forall i, j | 0 <= i < j < |init| ensures init[i] != init[j] {
      assert init[i] == keys[i] && init[j] == keys[j];
    }
    forall i | 0 <= i < |init| ensures init[i] != keys[|keys| - 1] {
      assert init[i] == keys[i];
    }
  }

  /** Removing a present key removes one entry. */
  lemma RemoveKeySize(results: History, k: Json)
    requires k in results
    ensures |results - {k}| == |results| - 1
  {
    assert results.Keys == (results - {k}).Keys + {k};
  }

  /** A map whose keys are listed once each by `keys` has `|keys|` entries. */
  lemma {:induction false} KeyCount(results: History, keys: seq<Json>)
    requires Distinct(keys)
    requires forall k :: k in results <==> k in keys
    ensures |results| == |keys|
    decreases |keys|
  {
    if keys != [] {
      var init := keys[..|keys| - 1];
      var k := keys[|keys| - 1];
      assert keys == init + [k];
      var rest := results - {k};
      DistinctInit(keys);
      forall x ensures x in rest <==> x in init {
        assert x in keys <==> x in init || x == k;
      }
      KeyCount(rest, init);
      RemoveKeySize(results, k);
    }
  }

  /** The `ResultHandler` object: `results` with its keys' insertion order. */
  class ResultHandler {
    var results: History
    var order: seq<Json>

    /** `order` lists every key of `results` exactly once. */
    ghost predicate Valid()
      reads this
    {
      Distinct(order) && forall k :: k in results <==> k in order
    }

    constructor()
      ensures Valid()
      ensures results == map[] && order == []
    {
      results := map[];
      order := [];
    }

    /** `get_task_results`: the task's history, `[]` for an unknown task. */
    function TaskResults(taskId: Json): (h: seq<Record>)
      reads this
      ensures taskId in results ==> h == results[taskId]
      ensures taskId !in results ==> h == []
    {
      if taskId in results then results[taskId] else []
    }

    /** `get_latest_result`: the last record added for the task, if any. */
    function LatestResult(taskId: Json): (r: Option<Record>)
      reads this
      ensures r.Some? <==> (taskId in results && |results[taskId]| > 0)
      ensures r.Some? ==> r.value == results[taskId][|results[taskId]| - 1]
      ensures r.Some? ==> r.value in TaskResults(taskId)
    {
      if taskId in results && |results[taskId]| > 0 then Some(results[taskId][|results[taskId]| - 1])
      else None
    }

    /** `get_all_results`: a shallow copy with the same histories. */
    function AllResults(): (m: History)
      reads this
      ensures m.Keys == results.Keys
      ensures forall k :: k in m ==> m[k] == TaskResults(k)
    {
      results
    }

    /** `add_result`: stamp the record with `now` (the clock is a parameter)
        and append it to its task's history, creating the history first if
        the task is new. Other tasks' histories are untouched. */
    method AddResult(taskId: Json, result: Record, now: string)
      requires Valid()
      modifies this
      ensures Valid()
      ensures results == old(results)[taskId := old(TaskResults(taskId)) + [result.(timestamp := Some(now))]]
      ensures order == if taskId in old(results) then old(order) else old(order) + [taskId]
      ensures LatestResult(taskId) == Some(result.(timestamp := Some(now)))
      ensures forall k :: k != taskId ==> TaskResults(k) == old(TaskResults(k))
    {
      if taskId !in results {
        results := results[taskId := []];
        order := order + [taskId];
      }
      var stamped := result.(timestamp := Some(now));
      results := results[taskId := results[taskId] + [stamped]];
    }

    /** `get_summary`: one pass over the tasks in insertion order. */
    method GetSummary() returns (s: Summary)
      requires Valid()
      ensures s == SummaryOf(results, order)
      ensures s.totalTasks == |order|
    {
      var tasks: map<Json, TaskSummary> := map[];
      var totalInAll := 0;
      var totalOutAll := 0;
      var i := 0;
      while i < |order|
        invariant 0 <= i <= |order|
        invariant tasks == TasksOver(results, order[..i])
        invariant totalInAll == Total(results, order[..i], In)
        invariant totalOutAll == Total(results, order[..i], Out)
      {
        var k := order[i];
        assert k in results;
        SummaryStep(results, order, i);
        var h := results[k];
        if |h| > 0 {
          var latest := h[|h| - 1];
          tasks := tasks[k := TaskSummary(latest.fps.GetOr(0.0), latest.totalIn.GetOr(0),
                                          latest.totalOut.GetOr(0), latest.currentCount.GetOr(0),
                                          latest.status.GetOr("unknown"), latest.timestamp.GetOr(""), |h|)];
          totalInAll := totalInAll + latest.totalIn.GetOr(0);
          totalOutAll := totalOutAll + latest.totalOut.GetOr(0);
        }
        i := i + 1;
      }
      assert order[..|order|] == order;
      KeyCount(results, order);
      s := Summary(|results|, tasks, Overall(totalInAll, totalOutAll, totalInAll - totalOutAll));
    }

    /** `reset`: drop every history. */
    method Reset()
      modifies this
      ensures Valid()
      ensures results == map[] && order == []
    {
      results := map[];
      order := [];
    }
  }

  /** What the summary promises about a handler's state: one task per key,
      `net_count` is in minus out, and each overall total is the sum of the
      latest counters of the tasks, whatever order they are visited in. */
  lemma SummaryTotals(results: History, order: seq<Json>, visit: seq<Json>)
    requires Distinct(order) && forall k :: k in results <==> k in order
    requires multiset(visit) == multiset(order)
    ensures SummaryOf(results, order).totalTasks == |order|
    ensures SummaryOf(results, order).overall.netCount
         == SummaryOf(results, order).overall.totalIn - SummaryOf(results, order).overall.totalOut
    ensures SummaryOf(results, order).overall.totalIn == Total(results, visit, In)
    ensures SummaryOf(results, order).overall.totalOut == Total(results, visit, Out)
  {
    KeyCount(results, order);
    TotalPermutation(results, order, visit, In);
    TotalPermutation(results, order, visit, Out);
  }
}
