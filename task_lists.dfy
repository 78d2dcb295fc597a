/**
 * The array operations the client applies to a list of tasks, keyed by
 * `_id`: `findIndex`, `filter` (delete) and `map` with replacement (update).
 */
module TaskLists {
  import opened TaskTypes

  /** `tasks.findIndex(t => t._id === id)`: the first position holding `id`, or -1. */
  function IndexOfId(tasks: seq<Task>, id: string): (r: int)
    ensures -1 <= r < |tasks|
    ensures r == -1 <==> forall k | 0 <= k < |tasks| :: tasks[k].id != id
    ensures 0 <= r ==> tasks[r].id == id && forall k | 0 <= k < r :: tasks[k].id != id
  {
    if tasks == [] then -1
    else if tasks[0].id == id then 0
    else
      var r := IndexOfId(tasks[1..], id);
      assert forall k | 1 <= k < |tasks| :: tasks[k] == tasks[1..][k - 1];
      if r == -1 then -1 else r + 1
  }

  /** `tasks.filter(t => t._id !== id)`. */
  function WithoutId(tasks: seq<Task>, id: string): (r: seq<Task>)
    ensures |r| <= |tasks|
    ensures forall t :: t in r <==> t in tasks && t.id != id
  {
    if tasks == [] then []
    else if tasks[0].id == id then WithoutId(tasks[1..], id)
    else [tasks[0]] + WithoutId(tasks[1..], id)
  }

  /** Filtering distributes over concatenation, so the kept tasks stay in their relative order. */
  lemma {:induction false} WithoutIdAppend(a: seq<Task>, b: seq<Task>, id: string)
    ensures WithoutId(a + b, id) == WithoutId(a, id) + WithoutId(b, id)
  {
    if a == [] {
      assert a + b == b;
    } else {
      assert (a + b)[0] == a[0];
      assert (a + b)[1..] == a[1..] + b;
      WithoutIdAppend(a[1..], b, id);
    }
  }

  /** Each task is kept as often as it occurs, unless it carries `id`, in which case it is gone. */
  lemma {:induction false} WithoutIdCounts(tasks: seq<Task>, id: string, t: Task)
    ensures multiset(WithoutId(tasks, id))[t] == if t.id == id then 0 else multiset(tasks)[t]
  {
    if tasks != [] {
      assert tasks == [tasks[0]] + tasks[1..];
      WithoutIdCounts(tasks[1..], id, t);
    }
  }

  /** A list with no task carrying `id` is left as it is. */
  lemma {:induction false} WithoutIdAbsent(tasks: seq<Task>, id: string)
    requires forall k | 0 <= k < |tasks| :: tasks[k].id != id
    ensures WithoutId(tasks, id) == tasks
  {
    if tasks != [] {
      WithoutIdAbsent(tasks[1..], id);
    }
  }

  /** Removing an id twice is the same as removing it once. */
  lemma WithoutIdIdempotent(tasks: seq<Task>, id: string)
    ensures WithoutId(WithoutId(tasks, id), id) == WithoutId(tasks, id)
  {
    var r := WithoutId(tasks, id);
    assert forall k | 0 <= k < |r| :: r[k] in r;
    WithoutIdAbsent(r, id);
  }

  /** `tasks.map(t => t._id === id ? replacement : t)`. */
  function ReplaceById(tasks: seq<Task>, id: string, replacement: Task): (r: seq<Task>)
    ensures |r| == |tasks|
    ensures forall k | 0 <= k < |tasks| ::
      r[k] == if tasks[k].id == id then replacement else tasks[k]
  {
    if tasks == [] then []
    else
      var rest := ReplaceById(tasks[1..], id, replacement);
      assert forall k | 1 <= k < |tasks| :: tasks[k] == tasks[1..][k - 1];
      [if tasks[0].id == id then replacement else tasks[0]] + rest
  }

  /** Replacing an id no task carries leaves the list as it is. */
  lemma ReplaceByIdAbsent(tasks: seq<Task>, id: string, replacement: Task)
    requires forall k | 0 <= k < |tasks| :: tasks[k].id != id
    ensures ReplaceById(tasks, id, replacement) == tasks
  {
  }
}
