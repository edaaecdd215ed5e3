/**
 * The orchestrator: a task store and a task queue used together. New
 * tasks go into both; processing takes the next task off the queue and
 * out of the store.
 */
module Orchestrator {
  import opened Wrappers
  import opened TaskModel
  import opened TaskStore
  import opened TaskQueue

  class Orchestrator {
    const queue: TaskQueue
    const store: TaskStore

    ghost predicate Valid()
      reads this, queue, store
    {
      queue.Valid() && store.Valid()
    }

    /** An orchestrator over a queue and a store made elsewhere. */
    constructor (queue: TaskQueue, store: TaskStore)
      requires queue.Valid() && store.Valid()
      ensures this.queue == queue && this.store == store && Valid()
    {
      this.queue := queue;
      this.store := store;
    }

    /**
     * Takes the store's next id, stores a copy of a fresh task under it
     * (the copy has no channel ends), queues the task and returns the id.
     */
    method AddTask(handlerId: string, content: TaskContent, qos: QualityOfService) returns (id: TaskId)
      requires Valid()
      modifies queue, store
      ensures Valid()
      ensures id == old(store.counter)
      ensures store.counter == (old(store.counter) + 1) % U32_LIMIT
      ensures store.tasks == old(store.tasks)[id := CloneTask(NewTask(handlerId, id, content, qos))]
      ensures queue.index == old(queue.index)[handlerId := TaskList(handlerId, old(queue.Tasks(handlerId)) + [PendingTask(qos, id)])]
      ensures handlerId in old(queue.index) ==> queue.heap == old(queue.heap)
      ensures handlerId !in old(queue.index) ==>
        InIndex(old(queue.heap), queue.index) && queue.heap == HeapPush(old(queue.heap), handlerId, queue.index)
      ensures queue.Size() == old(queue.Size()) + 1
    {
      id := store.NextTaskId();
      var task := NewTask(handlerId, id, content, qos);
      store.InsertTask(CloneTask(task));
      queue.Push(task);
    }

    /**
     * Takes the next task off the queue and out of the store and returns
     * its id; `None` once the queue is empty. An id the store no longer
     * holds is still returned.
     */
    method ProcessOne() returns (r: Option<TaskId>)
      requires Valid()
      modifies queue, store
      ensures Valid()
      ensures r.None? <==> old(queue.heap) == []
      ensures r.None? ==> store.tasks == old(store.tasks) && queue.index == old(queue.index) && queue.heap == old(queue.heap)
      ensures r.Some? ==> old(queue.Next()).Some? && r.value == old(queue.Next()).value.id
      ensures r.Some? ==> store.tasks == old(store.tasks) - {r.value}
      ensures r.Some? ==> queue.Size() + 1 == old(queue.Size())
      ensures old(queue.heap) != [] ==>
        multiset(queue.Tasks(old(queue.heap[0]))) == multiset(old(queue.Tasks(queue.heap[0]))) - multiset{old(queue.Next()).value}
      ensures old(queue.heap) != [] ==> forall k :: k != old(queue.heap[0]) ==> queue.Tasks(k) == old(queue.Tasks(k))
      ensures store.counter == old(store.counter)
    {
      var popped := queue.PopHead();
      if popped.None? {
        return None;
      }
      var id := popped.value.id;
      var _ := store.RemoveTask(id);
      r := Some(id);
    }

    /** Processes tasks until the queue is empty. */
    method RunAll()
      requires Valid()
      modifies queue, store
      ensures Valid() && queue.heap == [] && queue.index == map[]
    {
      var more := true;
      while more
        invariant Valid()
        invariant !more ==> queue.heap == []
        decreases if more then queue.Size() + 1 else 0
      {
        var r := ProcessOne();
        more := r.Some?;
      }
      EmptyIffNoTasks(queue.index, queue.heap);
    }
  }

  /** The first task added gets id 1; it is processed once, and then nothing is left. */
  method AddAndProcess(handler: string, content: TaskContent, qos: QualityOfService)
    returns (id: TaskId, first: Option<TaskId>, second: Option<TaskId>)
    ensures id == 1 && first == Some(1) && second == None
  {
    var queue := new TaskQueue();
    var store := new TaskStore();
    var orch := new Orchestrator(queue, store);
    id := orch.AddTask(handler, content, qos);
    FirstList(queue.index, handler);
    assert queue.Next() == Some(PendingTask(qos, 1));
    first := orch.ProcessOne();
    EmptyIffNoTasks(queue.index, queue.heap);
    second := orch.ProcessOne();
  }

  /** After `run_all` there is nothing left to process. */
  method RunAllDrains(h1: string, h2: string, c1: TaskContent, c2: TaskContent) returns (p: Option<TaskId>)
    ensures p == None
  {
    var queue := new TaskQueue();
    var store := new TaskStore();
    var orch := new Orchestrator(queue, store);
    var _ := orch.AddTask(h1, c1, Background);
    var _ := orch.AddTask(h2, c2, Background);
    orch.RunAll();
    p := orch.ProcessOne();
  }
}
