/**
 * The task queue: one list of pending tasks per handler, and a binary
 * max-heap of those lists ordered by the best task each one holds.
 *
 * The lists are shared between the handler table and the heap; the model
 * keeps each list once, in `index`, and lets the heap refer to it by the
 * handler id. A list inside the heap can gain tasks (and so a better head)
 * without the heap being told, so the heap's order is only as good as the
 * sifting that happened to run. The heap is therefore modelled with the
 * sifting the standard library's binary heap performs (its `push`, and its
 * `pop` that moves the last element to the root and sifts it to the
 * bottom and back up), comparing the lists' current heads each time.
 */
module TaskQueue {
  import opened Wrappers
  import opened TaskModel

  // ---- one handler's list ----

  /** The pending tasks of one handler; their order in `tasks` carries no meaning. */
  datatype TaskList = TaskList(id: string, tasks: seq<PendingTask>)

  /** The greatest task of a non-empty list in the (qos, id) order. */
  function MaxTask(s: seq<PendingTask>): (m: PendingTask)
    requires s != []
    ensures m in s
    ensures forall x :: x in s ==> PendingLe(x, m)
  {
    if |s| == 1 then s[0]
    else
      var rest := MaxTask(s[1..]);
      assert forall x :: x in s[1..] ==> PendingLe(x, rest);
      if PendingLe(s[0], rest) then rest
      else
        assert forall x :: x in s[1..] ==> PendingLe(x, s[0]) by {
          forall x | x in s[1..] ensures PendingLe(x, s[0]) {
            PendingLeTransitive(x, rest, s[0]);
          }
        }
        s[0]
  }

  /** `s` without the first occurrence of `x`. */
  function RemoveOne(s: seq<PendingTask>, x: PendingTask): (r: seq<PendingTask>)
    ensures x in s ==> multiset(r) == multiset(s) - multiset{x} && |r| == |s| - 1
    ensures x !in s ==> r == s
  {
    if s == [] then []
    else if s[0] == x then
      assert s == [s[0]] + s[1..];
      s[1..]
    else
      assert s == [s[0]] + s[1..];
      [s[0]] + RemoveOne(s[1..], x)
  }

  /** The head of a list as the list's `peek` reports it. */
  function Peek(l: TaskList): (r: Option<PendingTask>)
    ensures r.None? <==> l.tasks == []
    ensures r.Some? ==> r.value in l.tasks && forall x :: x in l.tasks ==> PendingLe(x, r.value)
  {
    if l.tasks == [] then None else Some(MaxTask(l.tasks))
  }

  /** `list.pop()`: the greatest task comes out; an empty list gives nothing. */
  function PopTask(tasks: seq<PendingTask>): (r: (seq<PendingTask>, Option<PendingTask>))
    ensures tasks == [] ==> r == ([], None)
    ensures tasks != [] ==> r.1.Some? && r.1.value in tasks
    ensures tasks != [] ==> forall x :: x in tasks ==> PendingLe(x, r.1.value)
    ensures tasks != [] ==> multiset(r.0) == multiset(tasks) - multiset{r.1.value}
  {
    if tasks == [] then ([], None)
    else
      var m := MaxTask(tasks);
      (RemoveOne(tasks, m), Some(m))
  }

  /** Within one list, with equal quality of service the highest id comes out first. */
  lemma LatestFirst(tasks: seq<PendingTask>, x: PendingTask)
    requires x in tasks
    requires forall y :: y in tasks ==> y.qos == x.qos
    ensures PopTask(tasks).1.value.id >= x.id
  {
    var m := PopTask(tasks).1.value;
    assert PendingLe(x, m);
  }

  /** A user-interactive task leaves a list before every background task in it. */
  lemma InteractiveFirst(tasks: seq<PendingTask>, id: TaskId)
    requires PendingTask(UserInteractive, id) in tasks
    ensures PopTask(tasks).1.value.qos == UserInteractive
  {
    var m := PopTask(tasks).1.value;
    assert PendingLe(PendingTask(UserInteractive, id), m);
  }

  /** The order of lists: an empty list is below a non-empty one; non-empty lists compare their heads. */
  function TaskListCmp(a: TaskList, b: TaskList): (r: Ordering)
    ensures r == Equal <==> (a.tasks == [] && b.tasks == []) || (a.tasks != [] && b.tasks != [] && MaxTask(a.tasks) == MaxTask(b.tasks))
    ensures r == Less <==> (a.tasks == [] && b.tasks != []) || (a.tasks != [] && b.tasks != [] && PendingCmp(MaxTask(a.tasks), MaxTask(b.tasks)) == Less)
  {
    match (Peek(a), Peek(b))
    case (None, None) => Equal
    case (None, Some(_)) => Less
    case (Some(_), None) => Greater
    case (Some(x), Some(y)) => PendingCmp(x, y)
  }

  predicate ListLe(a: TaskList, b: TaskList)
  {
    TaskListCmp(a, b) != Greater
  }

  /** How two lists compare: by emptiness first, then by their greatest tasks. */
  lemma TaskListOrder(a: TaskList, b: TaskList)
    ensures a.tasks == [] && b.tasks != [] ==> TaskListCmp(a, b) == Less
    ensures a.tasks != [] && b.tasks == [] ==> TaskListCmp(a, b) == Greater
    ensures a.tasks != [] && b.tasks != [] ==>
      TaskListCmp(a, b) == PendingCmp(MaxTask(a.tasks), MaxTask(b.tasks))
    ensures TaskListCmp(a, b) == TaskListCmp(b, a).Reverse()
  {
    if a.tasks != [] && b.tasks != [] {
      PendingOrder(MaxTask(a.tasks), MaxTask(b.tasks));
    }
  }

  // ---- the heap of lists ----

  /** Every handler id in the heap has a list. */
  predicate InIndex(h: seq<string>, idx: map<string, TaskList>)
  {
    forall i :: 0 <= i < |h| ==> h[i] in idx
  }

  /** Rearranging a heap keeps it inside the table. */
  lemma SameElements(a: seq<string>, b: seq<string>, idx: map<string, TaskList>)
    requires multiset(a) == multiset(b) && InIndex(b, idx)
    ensures InIndex(a, idx)
  {
    forall i | 0 <= i < |a| ensures a[i] in idx {
      assert a[i] in multiset(b);
      var j :| 0 <= j < |b| && b[j] == a[i];
    }
  }

  /** A heap holding exactly the table's keys lies inside the table. */
  lemma KeysInIndex(h: seq<string>, idx: map<string, TaskList>)
    requires multiset(h) == multiset(idx.Keys)
    ensures InIndex(h, idx)
  {
    forall i | 0 <= i < |h| ensures h[i] in idx {
      assert h[i] in multiset(h);
    }
  }

  /** What is left of the heap after its root is taken out still lies inside the table. */
  lemma RestInIndex(rest: seq<string>, root: string, idx: map<string, TaskList>)
    requires multiset(rest) + multiset{root} == multiset(idx.Keys)
    ensures InIndex(rest, idx)
  {
    forall i | 0 <= i < |rest| ensures rest[i] in idx {
      assert rest[i] in multiset(rest);
      assert rest[i] in multiset(idx.Keys);
    }
  }

  /** The multiset of a key set grows by one for a new key. */
  lemma AddKey(keys: set<string>, k: string)
    requires k !in keys
    ensures multiset(keys + {k}) == multiset(keys) + multiset{k}
  {
  }

  lemma CancelOne(a: multiset<string>, b: multiset<string>, x: string)
    requires a + multiset{x} == b + multiset{x}
    ensures a == b
  {
    forall y
      ensures a[y] == b[y]
    {
      assert (a + multiset{x})[y] == (b + multiset{x})[y];
    }
  }

  /** The multiset of a key set shrinks by one for a removed key. */
  lemma DropKey(keys: set<string>, k: string)
    requires k in keys
    ensures multiset(keys - {k}) + multiset{k} == multiset(keys)
  {
    assert keys == (keys - {k}) + {k};
    AddKey(keys - {k}, k);
  }

  function Swap(h: seq<string>, i: nat, j: nat): (r: seq<string>)
    requires i < |h| && j < |h|
    ensures |r| == |h| && multiset(r) == multiset(h)
    ensures r[i] == h[j] && r[j] == h[i]
    ensures forall k :: 0 <= k < |h| && k != i && k != j ==> r[k] == h[k]
  {
    h[i := h[j]][j := h[i]]
  }

  /** The standard heap's `sift_up`: move the element at `pos` up while it is greater than its parent. */
  function SiftUp(h: seq<string>, pos: nat, idx: map<string, TaskList>): (r: seq<string>)
    requires pos < |h| && InIndex(h, idx)
    ensures |r| == |h| && multiset(r) == multiset(h) && InIndex(r, idx)
    decreases pos
  {
    if pos == 0 then h
    else
      var parent := (pos - 1) / 2;
      if ListLe(idx[h[pos]], idx[h[parent]]) then h
      else SiftUp(Swap(h, pos, parent), parent, idx)
  }

  /**
   * The standard heap's `sift_down_to_bottom`: move the element at `pos`
   * down along the greater children to a leaf, then sift it up again.
   */
  function SiftDownToBottom(h: seq<string>, pos: nat, idx: map<string, TaskList>): (r: seq<string>)
    requires pos < |h| && InIndex(h, idx)
    ensures |r| == |h| && multiset(r) == multiset(h) && InIndex(r, idx)
    decreases |h| - pos
  {
    var child := 2 * pos + 1;
    if child + 1 < |h| then
      var c := if ListLe(idx[h[child]], idx[h[child + 1]]) then child + 1 else child;
      SiftDownToBottom(Swap(h, pos, c), c, idx)
    else if child == |h| - 1 then
      SiftUp(Swap(h, pos, child), child, idx)
    else
      SiftUp(h, pos, idx)
  }

  /** The heap's `push`: append, then sift up. */
  function HeapPush(h: seq<string>, x: string, idx: map<string, TaskList>): (r: seq<string>)
    requires InIndex(h, idx) && x in idx
    ensures multiset(r) == multiset(h) + multiset{x} && InIndex(r, idx)
  {
    SiftUp(h + [x], |h|, idx)
  }

  /** The heap's `pop`: the root comes out, the last element takes its place and sinks. */
  function HeapPop(h: seq<string>, idx: map<string, TaskList>): (r: (string, seq<string>))
    requires h != [] && InIndex(h, idx)
    ensures r.0 == h[0] && InIndex(r.1, idx)
    ensures multiset(r.1) + multiset{r.0} == multiset(h)
  {
    if |h| == 1 then
      assert h == [h[0]];
      (h[0], [])
    else
      var moved := [h[|h| - 1]] + h[1..|h| - 1];
      assert multiset(moved) + multiset{h[0]} == multiset(h) by {
        assert h == [h[0]] + h[1..|h| - 1] + [h[|h| - 1]];
      }
      assert InIndex(moved, idx) by {
        forall i | 0 <= i < |moved| ensures moved[i] in idx {
          if i > 0 {
            assert moved[i] == h[i];
          }
        }
      }
      (h[0], SiftDownToBottom(moved, 0, idx))
  }

  /** The heap order holds when no list is greater than its parent. */
  ghost predicate HeapOrdered(h: seq<string>, idx: map<string, TaskList>)
    requires InIndex(h, idx)
  {
    forall i :: 0 < i < |h| ==> BelowParent(h, idx, i)
  }

  ghost predicate BelowParent(h: seq<string>, idx: map<string, TaskList>, i: nat)
    requires InIndex(h, idx) && 0 < i < |h|
  {
    ListLe(idx[h[i]], idx[h[(i - 1) / 2]])
  }

  /** A list is never above itself in the order, and the order is transitive. */
  lemma ListLeFacts(a: TaskList, b: TaskList, c: TaskList)
    ensures ListLe(a, a)
    ensures ListLe(a, b) && ListLe(b, c) ==> ListLe(a, c)
  {
    if a.tasks != [] {
      PendingOrder(MaxTask(a.tasks), MaxTask(a.tasks));
    }
    if ListLe(a, b) && ListLe(b, c) && a.tasks != [] && b.tasks != [] && c.tasks != [] {
      PendingLeTransitive(MaxTask(a.tasks), MaxTask(b.tasks), MaxTask(c.tasks));
    }
  }

  /** When the heap order holds, every list is at most the root's: the root holds the best task. */
  lemma {:induction false} RootIsGreatest(h: seq<string>, idx: map<string, TaskList>, i: nat)
    requires InIndex(h, idx) && HeapOrdered(h, idx) && i < |h|
    ensures ListLe(idx[h[i]], idx[h[0]])
    decreases i
  {
    if i == 0 {
      ListLeFacts(idx[h[0]], idx[h[0]], idx[h[0]]);
    } else {
      var p := (i - 1) / 2;
      assert BelowParent(h, idx, i);
      RootIsGreatest(h, idx, p);
      ListLeFacts(idx[h[i]], idx[h[p]], idx[h[0]]);
    }
  }

  // ---- the queue ----

  function TasksOf(idx: map<string, TaskList>, handler: string): seq<PendingTask>
  {
    if handler in idx then idx[handler].tasks else []
  }

  /** Every list is non-empty and stored under its own handler id. */
  ghost predicate ListsValid(idx: map<string, TaskList>)
  {
    forall id :: id in idx ==> idx[id].id == id && idx[id].tasks != []
  }

  class TaskQueue {
    /** The handler table: each handler's list, under the handler's id. */
    var index: map<string, TaskList>
    /** The heap of lists, as handler ids in the heap's array order. */
    var heap: seq<string>

    /** The table and the heap hold the same lists, once each, every one non-empty and under its own id. */
    ghost predicate Valid()
      reads this
    {
      ListsValid(index) && multiset(heap) == multiset(index.Keys)
    }

    constructor ()
      ensures Valid() && index == map[] && heap == []
    {
      index := map[];
      heap := [];
    }

    /** The pending tasks held for `handler`. */
    function Tasks(handler: string): seq<PendingTask>
      reads this
    {
      TasksOf(index, handler)
    }

    /** The task the next pop will hand out: the greatest task of the root list. */
    ghost function Next(): Option<PendingTask>
      reads this
      requires Valid()
    {
      if heap == [] then None
      else
        assert heap[0] in multiset(heap);
        Some(MaxTask(index[heap[0]].tasks))
    }

    /** The number of pending tasks over all lists. */
    ghost function Size(): nat
      reads this
    {
      Total(index.Keys, index)
    }

    /**
     * Queues `task` on its handler's list, creating and heap-inserting the
     * list for a new handler. A task without content is ignored. An
     * existing list is extended in place and the heap is not re-sifted.
     */
    method Push(task: Task)
      requires Valid()
      modifies this
      ensures Valid()
      ensures task.content.None? ==> index == old(index) && heap == old(heap)
      ensures task.content.Some? ==>
        Tasks(task.handlerId) == old(Tasks(task.handlerId)) + [PendingTask(task.qos, task.id)]
      ensures task.content.Some? && task.handlerId in old(index) ==>
        index == old(index)[task.handlerId := TaskList(task.handlerId, old(Tasks(task.handlerId)) + [PendingTask(task.qos, task.id)])]
        && heap == old(heap)
      ensures task.content.Some? && task.handlerId !in old(index) ==>
        index == old(index)[task.handlerId := TaskList(task.handlerId, [PendingTask(task.qos, task.id)])]
        && InIndex(old(heap), index) && heap == HeapPush(old(heap), task.handlerId, index)
      ensures task.content.Some? ==> Size() == old(Size()) + 1
    {
      if task.content.None? {
        return;
      }
      var pending := PendingTask(task.qos, task.id);
      if task.handlerId in index {
        AppendToList(task.handlerId, pending);
      } else {
        AddList(task.handlerId, pending);
      }
    }

    /** The existing list of `h` gains `pending`; the heap is left as it is. */
    method AppendToList(h: string, pending: PendingTask)
      requires Valid() && h in index
      modifies this
      ensures Valid() && heap == old(heap)
      ensures index == old(index)[h := TaskList(h, old(index[h].tasks) + [pending])]
      ensures Size() == old(Size()) + 1
    {
      var old_index := index;
      index := index[h := index[h].(tasks := index[h].tasks + [pending])];
      assert index.Keys == old_index.Keys;
      TotalReplace(old_index.Keys, old_index, index, h);
    }

    /** A new list for `h`, holding `pending`, enters the table and is pushed onto the heap. */
    method AddList(h: string, pending: PendingTask)
      requires Valid() && h !in index
      modifies this
      ensures Valid()
      ensures index == old(index)[h := TaskList(h, [pending])]
      ensures InIndex(old(heap), index) && heap == HeapPush(old(heap), h, index)
      ensures Size() == old(Size()) + 1
    {
      var old_index := index;
      index := index[h := TaskList(h, [pending])];
      KeysInIndex(heap, old_index);
      heap := HeapPush(heap, h, index);
      AddedList(old_index, index, h, pending);
    }

    method Clear()
      modifies this
      ensures Valid() && index == map[] && heap == []
    {
      heap := [];
      index := map[];
    }

    /**
     * Takes the root list out of the heap, lets `f` change its tasks and
     * compute a result, then puts the list back if it still has tasks and
     * drops it from the table otherwise. An empty heap gives `None`.
     */
    method MutHead<T>(f: seq<PendingTask> -> (seq<PendingTask>, Option<T>)) returns (r: Option<T>)
      requires Valid()
      modifies this
      ensures Valid()
      ensures old(heap) == [] ==> r == None && index == old(index) && heap == old(heap)
      ensures old(heap) != [] ==> old(heap[0]) in old(index) && r == f(old(index[heap[0]].tasks)).1
      ensures old(heap) != [] && f(old(index[heap[0]].tasks)).0 != [] ==>
        index == old(index)[old(heap[0]) := TaskList(old(heap[0]), f(old(index[heap[0]].tasks)).0)]
      ensures old(heap) != [] && f(old(index[heap[0]].tasks)).0 == [] ==>
        index == old(index) - {old(heap[0])}
    {
      if heap == [] {
        return None;
      }
      KeysInIndex(heap, index);
      var (root, rest) := HeapPop(heap, index);
      var out := f(index[root].tasks);
      if out.0 != [] {
        PutBack(root, rest, out.0);
      } else {
        DropList(root, rest);
      }
      r := out.1;
    }

    /** The popped list `root`, now holding `tasks`, goes back onto the heap `rest`. */
    method PutBack(root: string, rest: seq<string>, tasks: seq<PendingTask>)
      requires ListsValid(index) && root in index && tasks != []
      requires multiset(rest) + multiset{root} == multiset(index.Keys)
      modifies this
      ensures Valid()
      ensures index == old(index)[root := TaskList(root, tasks)]
      ensures InIndex(rest, index) && heap == HeapPush(rest, root, index)
    {
      index := index[root := TaskList(root, tasks)];
      assert index.Keys == old(index).Keys;
      RestInIndex(rest, root, index);
      heap := HeapPush(rest, root, index);
      assert multiset(heap) == multiset(index.Keys);
    }

    /** The popped list `root` ran empty: it leaves the table, and the heap is `rest`. */
    method DropList(root: string, rest: seq<string>)
      requires ListsValid(index) && root in index
      requires multiset(rest) + multiset{root} == multiset(index.Keys)
      modifies this
      ensures Valid()
      ensures index == old(index) - {root} && heap == rest
    {
      DropKey(index.Keys, root);
      CancelOne(multiset(rest), multiset(index.Keys - {root}), root);
      index := index - {root};
      heap := rest;
    }

    /**
     * `mut_head(|list| list.pop())`, the only use the engine makes of
     * `mut_head`: the greatest task of the root list comes out.
     */
    method PopHead() returns (r: Option<PendingTask>)
      requires Valid()
      modifies this
      ensures Valid()
      ensures r == old(Next())
      ensures r.None? <==> old(heap) == []
      ensures r.None? ==> index == old(index) && heap == old(heap)
      ensures r.Some? ==> old(heap[0]) in old(index) && r.value in old(index[heap[0]].tasks)
      ensures r.Some? ==> forall x :: x in old(index[heap[0]].tasks) ==> PendingLe(x, r.value)
      ensures r.Some? ==> multiset(Tasks(old(heap[0]))) == multiset(old(Tasks(heap[0]))) - multiset{r.value}
      ensures r.Some? ==> forall k :: k != old(heap[0]) ==> Tasks(k) == old(Tasks(k))
      ensures r.Some? ==> Size() + 1 == old(Size())
    {
      if heap != [] {
        assert heap[0] in multiset(heap);
      }
      ghost var index0 := index;
      r := MutHead(PopTask);
      if r.Some? {
        PoppedTask(index0, index, old(heap[0]));
      }
    }
  }

  /** A new one-task list adds one key and one task. */
  lemma AddedList(a: map<string, TaskList>, b: map<string, TaskList>, h: string, p: PendingTask)
    requires h !in a && b == a[h := TaskList(h, [p])]
    ensures b.Keys == a.Keys + {h}
    ensures multiset(b.Keys) == multiset(a.Keys) + multiset{h}
    ensures Total(b.Keys, b) == Total(a.Keys, a) + 1
  {
    assert b.Keys == a.Keys + {h};
    AddKey(a.Keys, h);
    TotalRemove(b.Keys, h, b);
    assert b.Keys - {h} == a.Keys;
    TotalAgree(a.Keys, a, b);
  }

  /** What taking the greatest task out of the list of `root` does to the table. */
  lemma PoppedTask(a: map<string, TaskList>, b: map<string, TaskList>, root: string)
    requires ListsValid(a) && root in a
    requires PopTask(a[root].tasks).0 != [] ==> b == a[root := TaskList(root, PopTask(a[root].tasks).0)]
    requires PopTask(a[root].tasks).0 == [] ==> b == a - {root}
    ensures multiset(TasksOf(b, root)) == multiset(TasksOf(a, root)) - multiset{PopTask(a[root].tasks).1.value}
    ensures forall k :: k != root ==> TasksOf(b, k) == TasksOf(a, k)
    ensures Total(b.Keys, b) + 1 == Total(a.Keys, a)
  {
    var rest := PopTask(a[root].tasks).0;
    assert |multiset(rest)| + 1 == |multiset(a[root].tasks)|;
    if rest != [] {
      TotalReplace(a.Keys, a, b, root);
    } else {
      TotalRemove(a.Keys, root, a);
      assert a.Keys - {root} == b.Keys;
      TotalAgree(b.Keys, b, a);
    }
  }

  // ---- counting the pending tasks ----

  /** The number of tasks in the lists under `keys`. */
  ghost function Total(keys: set<string>, idx: map<string, TaskList>): nat
    requires keys <= idx.Keys
    decreases keys
  {
    if keys == {} then 0
    else
      var k :| k in keys;
      |idx[k].tasks| + Total(keys - {k}, idx)
  }

  /** `Total` may take out any key first. */
  lemma {:induction false} TotalRemove(keys: set<string>, k: string, idx: map<string, TaskList>)
    requires keys <= idx.Keys && k in keys
    ensures Total(keys, idx) == |idx[k].tasks| + Total(keys - {k}, idx)
    decreases keys
  {
    var j :| j in keys && Total(keys, idx) == |idx[j].tasks| + Total(keys - {j}, idx);
    if j != k {
      TotalRemove(keys - {j}, k, idx);
      TotalRemove(keys - {k}, j, idx);
      assert keys - {j} - {k} == keys - {k} - {j};
    }
  }

  /** A valid queue's heap is empty exactly when no task is pending. */
  lemma EmptyIffNoTasks(idx: map<string, TaskList>, heap: seq<string>)
    requires ListsValid(idx) && multiset(heap) == multiset(idx.Keys)
    ensures heap == [] <==> Total(idx.Keys, idx) == 0
    ensures heap == [] <==> idx == map[]
  {
    assert |idx.Keys| == |multiset(idx.Keys)| == |heap|;
    if heap != [] {
      assert heap[0] in multiset(heap);
      TotalRemove(idx.Keys, heap[0], idx);
    }
  }

  /** Two tables that agree on `keys` count the same there. */
  lemma {:induction false} TotalAgree(keys: set<string>, a: map<string, TaskList>, b: map<string, TaskList>)
    requires keys <= a.Keys && keys <= b.Keys
    requires forall k :: k in keys ==> a[k].tasks == b[k].tasks
    ensures Total(keys, a) == Total(keys, b)
    decreases keys
  {
    if keys != {} {
      var k :| k in keys && Total(keys, a) == |a[k].tasks| + Total(keys - {k}, a);
      TotalRemove(keys, k, b);
      TotalAgree(keys - {k}, a, b);
    }
  }

  /** Replacing one list changes the count by the difference in its length. */
  lemma TotalReplace(keys: set<string>, a: map<string, TaskList>, b: map<string, TaskList>, k: string)
    requires keys <= a.Keys && b.Keys == a.Keys && k in keys
    requires forall j :: j in keys && j != k ==> a[j].tasks == b[j].tasks
    ensures Total(keys, b) + |a[k].tasks| == Total(keys, a) + |b[k].tasks|
  {
    TotalRemove(keys, k, a);
    TotalRemove(keys, k, b);
    TotalAgree(keys - {k}, a, b);
  }

  // ---- scenarios ----

  /** A queue after `clear` gives nothing. */
  method ClearThenPop(t1: Task, t2: Task) returns (r: Option<PendingTask>)
    ensures r == None
  {
    var q := new TaskQueue();
    q.Push(t1);
    q.Push(t2);
    q.Clear();
    r := q.PopHead();
  }

  /**
   * The heap is not re-sifted when a list gains a task: handler "a" gets a
   * background task 1, handler "b" a background task 2 (so "b" becomes the
   * root), then "a" gets a user-interactive task 3. The next pop serves
   * "b"'s task 2 although "a" now holds the greatest task.
   */
  method StaleHeapOrder(c: TaskContent) returns (r: Option<PendingTask>, best: PendingTask)
    ensures r == Some(PendingTask(Background, 2))
    ensures best == PendingTask(UserInteractive, 3) && PendingCmp(best, r.value) == Greater
  {
    var q := TwoHandlers(c);
    q.Push(NewTask("a", 3, c, UserInteractive));
    r := q.PopHead();
    best := PendingTask(UserInteractive, 3);
  }

  /** Background task 1 for "a", then background task 2 for "b": the list of "b" is the root. */
  method TwoHandlers(c: TaskContent) returns (q: TaskQueue)
    ensures fresh(q) && q.Valid()
    ensures q.heap == ["b", "a"]
    ensures q.index["b"] == TaskList("b", [PendingTask(Background, 2)])
  {
    q := new TaskQueue();
    q.Push(NewTask("a", 1, c, Background));
    FirstList(q.index, "a");
    q.Push(NewTask("b", 2, c, Background));
    SecondListOvertakes(q.index, "a", "b", PendingTask(Background, 1), PendingTask(Background, 2));
  }

  /** Pushing onto an empty heap gives that one element. */
  lemma FirstList(idx: map<string, TaskList>, x: string)
    requires x in idx
    ensures HeapPush([], x, idx) == [x]
  {
  }

  /** A second list with a greater head is sifted above the first. */
  lemma SecondListOvertakes(idx: map<string, TaskList>, x: string, y: string, px: PendingTask, py: PendingTask)
    requires x in idx && y in idx && idx[x].tasks == [px] && idx[y].tasks == [py]
    requires PendingCmp(py, px) == Greater
    ensures HeapPush([x], y, idx) == [y, x]
  {
    assert Peek(idx[x]) == Some(px) && Peek(idx[y]) == Some(py);
    assert !ListLe(idx[y], idx[x]);
    assert Swap([x, y], 1, 0) == [y, x];
  }
}
