/**
 * The task store: the tasks known to the engine, keyed by id, and the
 * counter that hands out new ids.
 */
module TaskStore {
  import opened Wrappers
  import opened TaskModel

  /**
   * `sent` is what emptying a store holding `before` reports: one `Cancel`
   * result for each task that still held its result sender, and nothing else.
   */
  ghost predicate ClearReport(before: map<TaskId, Task>, sent: seq<TaskResult>)
  {
    (forall r :: r in sent ==> r.state == Cancel && r.id in before && before[r.id].ret)
    && (forall id :: id in before && before[id].ret ==> TaskResult(id, Cancel) in sent)
    && (forall i, j :: 0 <= i < j < |sent| ==> sent[i].id != sent[j].id)
  }

  class TaskStore {
    var tasks: map<TaskId, Task>
    /** The next id to hand out; a `u32` that wraps to 0 after the largest value. */
    var counter: TaskId

    /** Every task is stored under its own id. */
    ghost predicate Valid()
      reads this
    {
      forall id :: id in tasks ==> tasks[id].id == id
    }

    /** An empty store whose first id is 1. */
    constructor ()
      ensures tasks == map[] && counter == 1
      ensures Valid()
    {
      tasks := map[];
      counter := 1;
    }

    /** Stores `task` under its id, replacing any task with that id. */
    method InsertTask(task: Task)
      requires Valid()
      modifies this
      ensures Valid()
      ensures tasks == old(tasks)[task.id := task]
      ensures ReadTask(task.id) == Some(task)
      ensures counter == old(counter)
    {
      tasks := tasks[task.id := task];
    }

    /** Takes the task with id `id` out of the store, if there is one. */
    method RemoveTask(id: TaskId) returns (removed: Option<Task>)
      requires Valid()
      modifies this
      ensures Valid()
      ensures removed == old(ReadTask(id))
      ensures tasks == old(tasks) - {id}
      ensures ReadTask(id) == None
      ensures counter == old(counter)
    {
      if id in tasks {
        removed := Some(tasks[id]);
        tasks := tasks - {id};
      } else {
        removed := None;
      }
    }

    /** The task stored under `id`; `None` when there is none. */
    function ReadTask(id: TaskId): (r: Option<Task>)
      reads this
      ensures r.None? <==> id !in tasks
      ensures r.Some? ==> r.value == tasks[id] && r.value in tasks.Values
    {
      if id in tasks then Some(tasks[id]) else None
    }

    /**
     * `mut_task(id)` followed by `set_state(s)` on what it finds: the only
     * change the engine makes through a mutable borrow. Reports whether
     * a task was found.
     */
    method SetTaskState(id: TaskId, s: TaskState) returns (found: bool)
      requires Valid()
      modifies this
      ensures Valid()
      ensures found <==> id in old(tasks)
      ensures found ==> tasks == old(tasks)[id := SetState(old(tasks)[id], s)]
      ensures !found ==> tasks == old(tasks)
      ensures counter == old(counter)
    {
      found := id in tasks;
      if found {
        tasks := tasks[id := SetState(tasks[id], s)];
      }
    }

    /**
     * Empties the store. Every task that still holds its result sender is
     * set to `Cancel` and reports that over the channel; `sent` lists
     * those reports in the (unspecified) order the tasks were visited.
     */
    method Clear() returns (sent: seq<TaskResult>)
      requires Valid()
      modifies this
      ensures Valid()
      ensures tasks == map[] && counter == old(counter)
      ensures ClearReport(old(tasks), sent)
    {
      var snapshot := tasks;
      var rest := tasks.Keys;
      tasks := map[];
      sent := [];
      while rest != {}
        invariant snapshot == old(tasks) && rest <= snapshot.Keys
        invariant forall i :: 0 <= i < |sent| ==> sent[i].state == Cancel && sent[i].id in snapshot && snapshot[sent[i].id].ret && sent[i].id !in rest
        invariant forall id :: id in snapshot && id !in rest && snapshot[id].ret ==> TaskResult(id, Cancel) in sent
        invariant forall i, j :: 0 <= i < j < |sent| ==> sent[i].id != sent[j].id
        decreases rest
      {
        var id :| id in rest;
        var task := snapshot[id];
        if task.ret {
          task := SetState(task.(ret := false), Cancel);
          sent := sent + [ResultOf(task)];
        }
        rest := rest - {id};
      }
    }

    /** Hands out the current counter value and advances it, wrapping at 2^32. */
    method NextTaskId() returns (id: TaskId)
      requires Valid()
      modifies this
      ensures Valid()
      ensures id == old(counter)
      ensures counter == (old(counter) + 1) % U32_LIMIT
      ensures tasks == old(tasks)
    {
      id := counter;
      counter := (counter + 1) % U32_LIMIT;
    }
  }

  /**
   * The ids a fresh store hands out: 1, 2, 3, … in order, strictly
   * increasing as long as the counter has not wrapped.
   */
  method IssueIds(n: nat) returns (ids: seq<TaskId>)
    requires n < U32_LIMIT
    ensures |ids| == n
    ensures forall i :: 0 <= i < n ==> ids[i] == i + 1
    ensures forall i, j :: 0 <= i < j < n ==> ids[i] < ids[j]
  {
    var store := new TaskStore();
    ids := [];
    while |ids| < n
      invariant |ids| <= n
      invariant store.Valid() && store.counter == (|ids| + 1) % U32_LIMIT
      invariant forall i :: 0 <= i < |ids| ==> ids[i] == i + 1
    {
      var id := store.NextTaskId();
      ids := ids + [id];
    }
  }

  /** At the largest `u32` the counter hands that value out and wraps to 0. */
  method WrapAround() returns (last: TaskId, next: TaskId)
    ensures last == U32_LIMIT - 1 && next == 0
  {
    var store := new TaskStore();
    store.counter := U32_LIMIT - 1;
    last := store.NextTaskId();
    next := store.NextTaskId();
  }

  /** A task inserted and read back is that task; once removed it is gone. */
  method InsertReadRemove(t: Task) returns (read: Option<Task>, removed: Option<Task>, after: Option<Task>)
    ensures read == Some(t) && removed == Some(t) && after == None
  {
    var store := new TaskStore();
    store.InsertTask(t);
    read := store.ReadTask(t.id);
    removed := store.RemoveTask(t.id);
    after := store.ReadTask(t.id);
  }
}
