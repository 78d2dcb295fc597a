/**
 * The browser-side task store: each user's task list is kept in the
 * key-value store under "tasks_" + user id.
 */
module LocalTaskStore {
  import opened Wrappers
  import opened TaskTypes
  import opened TaskLists

  /** The key-value store, holding task lists as structured values. */
  type Store = map<string, seq<Task>>

  /** The key of a user's task list: the user id behind a fixed "tasks_" prefix. */
  function StorageKey(userId: string): (key: string)
    ensures |key| == |userId| + 6
    ensures key[..6] == "tasks_" && key[6..] == userId
  {
    "tasks_" + userId
  }

  /** Different users never share a key. */
  lemma StorageKeyInjective(u: string, v: string)
    ensures StorageKey(u) == StorageKey(v) ==> u == v
  {
  }

  /** What `getStoredTasks` reads: the list under the user's key, or [] when nothing is stored. */
  function StoredTasks(store: Store, userId: string): (r: seq<Task>)
    ensures StorageKey(userId) !in store ==> r == []
    ensures StorageKey(userId) in store ==> r == store[StorageKey(userId)]
  {
    if StorageKey(userId) in store then store[StorageKey(userId)] else []
  }

  /** The task `saveTask` builds: the draft's fields plus the id and the two clock readings. */
  function NewTask(draft: Draft, id: string, createdAt: string, updatedAt: string): (t: Task)
    ensures t.title == draft.title && t.description == draft.description && t.status == draft.status
    ensures t.id == id && t.createdAt == createdAt && t.updatedAt == updatedAt
  {
    Task(id, draft.title, draft.description, draft.status, createdAt, updatedAt)
  }

  /** The store after `saveTask` wrote the list with `t` in front. */
  function AfterSave(store: Store, userId: string, t: Task): (r: Store)
    ensures OnlyUserChanged(store, r, userId)
    ensures StoredTasks(r, userId) == [t] + StoredTasks(store, userId)
  {
    store[StorageKey(userId) := [t] + StoredTasks(store, userId)]
  }

  /** `{ ...old, ...updates, updatedAt: now }`. */
  function Merge(prior: Task, updates: Patch, now: string): (r: Task)
    ensures r.updatedAt == now
    ensures updates == Patch(None, None, None, None, None, None) ==> r == prior.(updatedAt := now)
  {
    Task(updates.id.GetOr(prior.id),
         updates.title.GetOr(prior.title),
         updates.description.GetOr(prior.description),
         updates.status.GetOr(prior.status),
         updates.createdAt.GetOr(prior.createdAt),
         now)
  }

  /** Every supplied field overrides, every other keeps its value, and `updatedAt` is always `now`. */
  lemma MergeFields(prior: Task, updates: Patch, now: string)
    ensures var m := Merge(prior, updates, now);
      && m.id == (if updates.id.Some? then updates.id.value else prior.id)
      && m.title == (if updates.title.Some? then updates.title.value else prior.title)
      && m.description == (if updates.description.Some? then updates.description.value else prior.description)
      && m.status == (if updates.status.Some? then updates.status.value else prior.status)
      && m.createdAt == (if updates.createdAt.Some? then updates.createdAt.value else prior.createdAt)
      && m.updatedAt == now
  {
  }

  /** The store after `updateTask`, and the value it returns (`None` for null). */
  datatype UpdateResult = UpdateResult(store: Store, task: Option<Task>)

  function AfterUpdate(store: Store, userId: string, taskId: string, updates: Patch, now: string): (r: UpdateResult)
    ensures OnlyUserChanged(store, r.store, userId)
    ensures r.task.None? <==> forall k | 0 <= k < |StoredTasks(store, userId)| :: StoredTasks(store, userId)[k].id != taskId
    ensures r.task.None? ==> r.store == store
    ensures r.task.Some? ==> r.task.value.updatedAt == now && |StoredTasks(r.store, userId)| == |StoredTasks(store, userId)|
  {
    var tasks := StoredTasks(store, userId);
    var i := IndexOfId(tasks, taskId);
    if i == -1 then UpdateResult(store, None)
    else
      var updated := Merge(tasks[i], updates, now);
      UpdateResult(store[StorageKey(userId) := tasks[i := updated]], Some(updated))
  }

  /** The store after `deleteTask`, which always writes the filtered list back. */
  function AfterDelete(store: Store, userId: string, taskId: string): (r: Store)
    ensures OnlyUserChanged(store, r, userId)
    ensures StorageKey(userId) in r
    ensures forall t :: t in StoredTasks(r, userId) <==> t in StoredTasks(store, userId) && t.id != taskId
  {
    store[StorageKey(userId) := WithoutId(StoredTasks(store, userId), taskId)]
  }

  /** `after` differs from `before` at most under the key of `userId`. */
  predicate OnlyUserChanged(before: Store, after: Store, userId: string)
  {
    after - {StorageKey(userId)} == before - {StorageKey(userId)}
  }

  /** Saving for one user changes no other key, and no other user's list. */
  lemma SaveIsolated(store: Store, u: string, v: string, t: Task)
    ensures OnlyUserChanged(store, AfterSave(store, u, t), u)
    ensures u != v ==> StoredTasks(AfterSave(store, u, t), v) == StoredTasks(store, v)
  {
  }

  /** Updating for one user changes no other key, and no other user's list. */
  lemma UpdateIsolated(store: Store, u: string, v: string, taskId: string, updates: Patch, now: string)
    ensures OnlyUserChanged(store, AfterUpdate(store, u, taskId, updates, now).store, u)
    ensures u != v ==> StoredTasks(AfterUpdate(store, u, taskId, updates, now).store, v) == StoredTasks(store, v)
  {
  }

  /** Deleting for one user changes no other key, and no other user's list. */
  lemma DeleteIsolated(store: Store, u: string, v: string, taskId: string)
    ensures OnlyUserChanged(store, AfterDelete(store, u, taskId), u)
    ensures u != v ==> StoredTasks(AfterDelete(store, u, taskId), v) == StoredTasks(store, v)
  {
  }

  /** After a save the new task heads the list, followed by the previous list in order. */
  lemma SavePrepends(store: Store, u: string, t: Task)
    ensures var after := StoredTasks(AfterSave(store, u, t), u);
      && |after| == |StoredTasks(store, u)| + 1
      && after[0] == t
      && after[1..] == StoredTasks(store, u)
  {
  }

  /** An id missing from the list: `updateTask` returns null and the store is untouched. */
  lemma UpdateMissing(store: Store, u: string, taskId: string, updates: Patch, now: string)
    requires forall k | 0 <= k < |StoredTasks(store, u)| :: StoredTasks(store, u)[k].id != taskId
    ensures AfterUpdate(store, u, taskId, updates, now) == UpdateResult(store, None)
  {
  }

  /**
   * An id present in the list: only its first occurrence `i` is replaced, by the merge
   * of that task with the updates, and the merged task is returned.
   */
  lemma UpdatePresent(store: Store, u: string, taskId: string, updates: Patch, now: string, i: nat)
    requires i < |StoredTasks(store, u)| && StoredTasks(store, u)[i].id == taskId
    requires forall k | 0 <= k < i :: StoredTasks(store, u)[k].id != taskId
    ensures var before := StoredTasks(store, u);
      var r := AfterUpdate(store, u, taskId, updates, now);
      var after := StoredTasks(r.store, u);
      && r.task == Some(Merge(before[i], updates, now))
      && |after| == |before|
      && after[i] == Merge(before[i], updates, now)
      && (forall k | 0 <= k < |before| && k != i :: after[k] == before[k])
  {
  }

  /** After a delete the user's list is the old one without the id, in the same order. */
  lemma DeleteRemoves(store: Store, u: string, taskId: string)
    ensures var after := StoredTasks(AfterDelete(store, u, taskId), u);
      && (forall t :: t in after <==> t in StoredTasks(store, u) && t.id != taskId)
      && after == WithoutId(StoredTasks(store, u), taskId)
  {
  }

  /** Deleting an absent id leaves the user's list as it was and reports nothing. */
  lemma DeleteAbsent(store: Store, u: string, taskId: string)
    requires forall k | 0 <= k < |StoredTasks(store, u)| :: StoredTasks(store, u)[k].id != taskId
    ensures StoredTasks(AfterDelete(store, u, taskId), u) == StoredTasks(store, u)
  {
    WithoutIdAbsent(StoredTasks(store, u), taskId);
  }

  /** Deleting twice is the same as deleting once. */
  lemma DeleteTwice(store: Store, u: string, taskId: string)
    ensures AfterDelete(AfterDelete(store, u, taskId), u, taskId) == AfterDelete(store, u, taskId)
  {
    WithoutIdIdempotent(StoredTasks(store, u), taskId);
  }

  /** Deleting a just-saved task whose id no earlier task carries gives back the earlier list. */
  lemma {:induction false} SaveThenDelete(store: Store, u: string, t: Task)
    requires forall k | 0 <= k < |StoredTasks(store, u)| :: StoredTasks(store, u)[k].id != t.id
    ensures StoredTasks(AfterDelete(AfterSave(store, u, t), u, t.id), u) == StoredTasks(store, u)
  {
    var before := StoredTasks(store, u);
    WithoutIdAppend([t], before, t.id);
    WithoutIdAbsent(before, t.id);
    assert WithoutId([t], t.id) == [];
  }

  /** The key-value store the browser keeps, through the four operations on task lists. */
  class TaskStorage {
    var store: Store

    constructor(initial: Store)
      ensures store == initial
    {
      store := initial;
    }

    /** `getStoredTasks`. */
    method GetStoredTasks(userId: string) returns (tasks: seq<Task>)
      ensures tasks == StoredTasks(store, userId)
    {
      tasks := StoredTasks(store, userId);
    }

    /** `saveTask`: `id` is the `Date.now()` reading, `createdAt` and `updatedAt` the two `new Date()` readings. */
    method SaveTask(userId: string, task: Draft, id: string, createdAt: string, updatedAt: string)
      returns (newTask: Task)
      modifies this
      ensures newTask == NewTask(task, id, createdAt, updatedAt)
      ensures store == AfterSave(old(store), userId, newTask)
    {
      var tasks := GetStoredTasks(userId);
      newTask := NewTask(task, id, createdAt, updatedAt);
      tasks := [newTask] + tasks;
      store := store[StorageKey(userId) := tasks];
    }

    /** `updateTask`: `None` is its null result; `now` is the `new Date()` reading. */
    method UpdateTask(userId: string, taskId: string, updates: Patch, now: string)
      returns (updated: Option<Task>)
      modifies this
      ensures UpdateResult(store, updated) == AfterUpdate(old(store), userId, taskId, updates, now)
    {
      var tasks := GetStoredTasks(userId);
      var taskIndex := IndexOfId(tasks, taskId);
      if taskIndex == -1 {
        return None;
      }
      var merged := Merge(tasks[taskIndex], updates, now);
      tasks := tasks[taskIndex := merged];
      store := store[StorageKey(userId) := tasks];
      updated := Some(merged);
    }

    /** `deleteTask`. */
    method DeleteTask(userId: string, taskId: string)
      modifies this
      ensures store == AfterDelete(old(store), userId, taskId)
    {
      var tasks := GetStoredTasks(userId);
      var filteredTasks := WithoutId(tasks, taskId);
      store := store[StorageKey(userId) := filteredTasks];
    }
  }
}
