/**
 * The task dispatcher: a queue, a store and a table of node
 * implementations keyed by name. Processing takes the next task off the
 * queue and out of the store, runs it through its handler and reports the
 * state it ends in over the task's result channel.
 *
 * Running a node (and the timeout around it) is not modelled: its outcome
 * is an input. Sends over a task's one-shot channel are recorded in
 * `results`, sends over the dispatcher's watch channel in `signals`.
 */
module TaskDispatcher {
  import opened Wrappers
  import opened Json
  import opened Nodes
  import opened Registry
  import opened TaskModel
  import opened TaskStore
  import opened TaskQueue

  /** How running a task's node ended: it returned, it failed, or the timeout elapsed first. */
  datatype Outcome = Completed | Failed | TimedOut

  /** The state a task that ran ends in. */
  function OutcomeState(o: Outcome): (s: TaskState)
    ensures s == Done <==> o == Completed
    ensures s == Failure <==> o == Failed
    ensures s == Timeout <==> o == TimedOut
  {
    match o
    case Completed => Done
    case Failed => Failure
    case TimedOut => Timeout
  }

  /** What processing does with a popped task: drop it silently, or report a result. */
  datatype Step = Dropped | Reported(result: TaskResult, processed: bool)

  /**
   * What processing does with `stored`, the store's entry for the popped
   * id (`None` when the store no longer holds it).
   */
  function Settle(stored: Option<Task>, handlers: map<string, NodeType>, outcome: Outcome): (r: Step)
    ensures r.Reported? ==> stored.Some? && r.result.id == stored.value.id
    ensures r.Reported? ==> r.result.state in {Cancel, Done, Failure, Timeout}
    ensures r.Dropped? <==> stored.None? || !stored.value.ret || (!stored.value.state.IsCancel() && stored.value.content.None?)
    ensures r.Reported? && !r.processed <==> stored.Some? && stored.value.ret && stored.value.state.IsCancel()
    ensures r.Reported? && r.processed ==>
      (r.result.state == Cancel <==> stored.value.handlerId !in handlers)
    ensures r.Reported? && r.processed && stored.value.handlerId in handlers ==>
      r.result.state == OutcomeState(outcome)
  {
    match stored
    case None => Dropped
    case Some(t) =>
      if !t.ret then Dropped
      else if t.state.IsCancel() then Reported(TaskResult(t.id, Cancel), false)
      else if t.content.None? then Dropped
      else if t.handlerId in handlers then Reported(TaskResult(t.id, OutcomeState(outcome)), true)
      else Reported(TaskResult(t.id, Cancel), true)
  }

  /** The context a node runs with: the content as a one-field parameter object, everything else empty. */
  function BuildContext(content: TaskContent): (ctx: NodeExecutionContext)
    ensures ctx.inputData == Null && ctx.globals == Null && ctx.env == Null && ctx.pinData == None
    ensures ctx.parameters.Obj? && |ctx.parameters.fields| == 1
    ensures content.Text? ==> GetField(ctx.parameters, "text") == Some(Str(content.text))
    ensures content.Blob? ==> GetField(ctx.parameters, "blob_size") == Some(Num(|content.bytes|))
  {
    match content
    case Text(s) => NodeExecutionContext(Obj(map["text" := Str(s)]), Null, Null, Null, None)
    case Blob(bytes) => NodeExecutionContext(Obj(map["blob_size" := Num(|bytes|)]), Null, Null, Null, None)
  }

  class TaskDispatcher {
    const queue: TaskQueue
    const store: TaskStore
    /** The node implementations, under the names they report. */
    var handlers: map<string, NodeType>
    /** Every result sent over a task's result channel, in order. */
    var results: seq<TaskResult>
    /** Every value sent over the watch channel, in order. */
    var signals: seq<bool>

    ghost predicate Valid()
      reads this, queue, store
    {
      queue.Valid() && store.Valid() && forall k :: k in handlers ==> handlers[k].name == k
    }

    /** A dispatcher with an empty queue, an empty store and no handlers. */
    constructor ()
      ensures Valid() && fresh(queue) && fresh(store)
      ensures queue.index == map[] && queue.heap == []
      ensures store.tasks == map[] && store.counter == 1
      ensures handlers == map[] && results == [] && signals == []
    {
      queue := new TaskQueue();
      store := new TaskStore();
      handlers := map[];
      results := [];
      signals := [];
    }

    /** Stores `node` under its name, replacing any earlier node of that name. */
    method RegisterNode(node: NodeType)
      requires Valid()
      modifies this
      ensures Valid()
      ensures handlers == old(handlers)[node.name := node]
      ensures results == old(results) && signals == old(signals)
    {
      handlers := handlers[node.name := node];
    }

    /** Removes the node registered under `name`, if any. */
    method UnregisterNode(name: string)
      requires Valid()
      modifies this
      ensures Valid()
      ensures handlers == old(handlers) - {name}
      ensures results == old(results) && signals == old(signals)
    {
      handlers := handlers - {name};
    }

    /** Sends `false` over the watch channel. */
    method Notify()
      modifies this
      ensures signals == old(signals) + [false]
      ensures handlers == old(handlers) && results == old(results)
    {
      signals := signals + [false];
    }

    /** Empties the store; every task still holding its sender reports `Cancel`. */
    method ClearTask()
      requires Valid()
      modifies this, store
      ensures Valid()
      ensures store.tasks == map[] && store.counter == old(store.counter)
      ensures |results| >= |old(results)| && results[..|old(results)|] == old(results)
      ensures ClearReport(old(store.tasks), results[|old(results)|..])
      ensures handlers == old(handlers) && signals == old(signals)
    {
      var sent := store.Clear();
      results := results + sent;
      assert results[|old(results)|..] == sent;
    }

    /** Signals `true`, then empties the queue and the store. */
    method Stop()
      requires Valid()
      modifies this, queue, store
      ensures Valid()
      ensures signals == old(signals) + [true]
      ensures queue.index == map[] && queue.heap == []
      ensures store.tasks == map[] && store.counter == old(store.counter)
      ensures |results| >= |old(results)| && results[..|old(results)|] == old(results)
      ensures ClearReport(old(store.tasks), results[|old(results)|..])
      ensures handlers == old(handlers)
    {
      signals := signals + [true];
      queue.Clear();
      ClearTask();
    }

    /**
     * Queues `task` and stores it, then notifies. A task already `Done`
     * is refused and nothing changes.
     */
    method AddTask(task: Task)
      requires Valid()
      modifies this, queue, store
      ensures Valid()
      ensures handlers == old(handlers) && results == old(results) && store.counter == old(store.counter)
      ensures task.state.IsDone() ==>
        queue.index == old(queue.index) && queue.heap == old(queue.heap)
        && store.tasks == old(store.tasks) && signals == old(signals)
      ensures !task.state.IsDone() ==>
        store.tasks == old(store.tasks)[task.id := task] && signals == old(signals) + [false]
      ensures !task.state.IsDone() && task.content.None? ==>
        queue.index == old(queue.index) && queue.heap == old(queue.heap)
      ensures !task.state.IsDone() && task.content.Some? ==>
        queue.index == old(queue.index)[task.handlerId := TaskList(task.handlerId, old(queue.Tasks(task.handlerId)) + [PendingTask(task.qos, task.id)])]
      ensures !task.state.IsDone() && task.content.Some? && task.handlerId in old(queue.index) ==>
        queue.heap == old(queue.heap)
      ensures !task.state.IsDone() && task.content.Some? && task.handlerId !in old(queue.index) ==>
        InIndex(old(queue.heap), queue.index) && queue.heap == HeapPush(old(queue.heap), task.handlerId, queue.index)
    {
      if task.state.IsDone() {
        return;
      }
      queue.Push(task);
      store.InsertTask(task);
      Notify();
    }

    /** The stored task with id `id`, if any. */
    function ReadTask(id: TaskId): (r: Option<Task>)
      reads this, store
      ensures r.Some? <==> id in store.tasks
      ensures r.Some? ==> r.value == store.tasks[id]
    {
      store.ReadTask(id)
    }

    /** Marks the stored task `id` as cancelled; an unknown id changes nothing. */
    method CancelTask(id: TaskId)
      requires Valid()
      modifies store
      ensures Valid()
      ensures id in old(store.tasks) ==> store.tasks == old(store.tasks)[id := SetState(old(store.tasks)[id], Cancel)]
      ensures id !in old(store.tasks) ==> store.tasks == old(store.tasks)
      ensures store.counter == old(store.counter)
    {
      var _ := store.SetTaskState(id, Cancel);
    }

    /** The store's next id. */
    method NextTaskId() returns (id: TaskId)
      requires Valid()
      modifies store
      ensures Valid()
      ensures id == old(store.counter)
      ensures store.counter == (old(store.counter) + 1) % U32_LIMIT && store.tasks == old(store.tasks)
    {
      id := store.NextTaskId();
    }

    /**
     * Takes the next task off the queue and out of the store. A task that
     * no longer holds its sender, or has no content, is dropped silently.
     * A cancelled task reports `Cancel` and the call returns `false`.
     * Otherwise the task runs if its handler is registered (ending in the
     * state `outcome` gives) and is cancelled if not; it reports that
     * state and the call returns `true`.
     */
    method ProcessNextTask(outcome: Outcome) returns (processed: bool)
      requires Valid()
      modifies this, queue, store
      ensures Valid()
      ensures handlers == old(handlers) && store.counter == old(store.counter)
      ensures old(queue.heap) == [] ==>
        !processed && queue.index == old(queue.index) && queue.heap == old(queue.heap)
        && store.tasks == old(store.tasks) && results == old(results) && signals == old(signals)
      ensures old(queue.heap) != [] ==>
        old(queue.Next()).Some? && queue.Size() + 1 == old(queue.Size())
        && store.tasks == old(store.tasks) - {old(queue.Next()).value.id}
      ensures old(queue.heap) != [] ==>
        multiset(queue.Tasks(old(queue.heap[0]))) == multiset(old(queue.Tasks(queue.heap[0]))) - multiset{old(queue.Next()).value}
      ensures old(queue.heap) != [] ==> forall k :: k != old(queue.heap[0]) ==> queue.Tasks(k) == old(queue.Tasks(k))
      ensures old(queue.heap) != [] ==>
        var step := Settle(old(store.ReadTask(queue.Next().value.id)), old(handlers), outcome);
        (step.Dropped? ==> !processed && results == old(results) && signals == old(signals))
        && (step.Reported? ==>
              processed == step.processed && results == old(results) + [step.result]
              && signals == old(signals) + [false])
    {
      var popped := queue.PopHead();
      if popped.None? {
        return false;
      }
      var removed := store.RemoveTask(popped.value.id);
      if removed.None? {
        return false;
      }
      var task := removed.value;
      if !task.ret {
        return false;
      }
      task := task.(ret := false);
      if task.state.IsCancel() {
        results := results + [ResultOf(task)];
        Notify();
        return false;
      }
      if task.content.None? {
        return false;
      }
      var content := task.content.value;
      task := task.(content := None);
      if task.handlerId in handlers {
        task := SetState(task, Processing);
        // The node runs on this context; `outcome` is how that ended.
        var ctx := BuildContext(content);
        match outcome
        case Completed => task := SetState(task, Done);
        case Failed => task := SetState(task, Failure);
        case TimedOut => task := SetState(task, Timeout);
      } else {
        task := SetState(task, Cancel);
      }
      results := results + [ResultOf(task)];
      Notify();
      processed := true;
    }
  }

  // ---- scenarios ----

  /**
   * A fresh dispatcher holding one fresh task, id 1, for `handler`; its
   * queue will hand that task out next.
   */
  method WithOneTask(handler: string, content: TaskContent, qos: QualityOfService) returns (d: TaskDispatcher)
    ensures fresh(d) && fresh(d.queue) && fresh(d.store) && d.Valid()
    ensures d.handlers == map[] && d.results == [] && d.signals == [false]
    ensures d.queue.Next() == Some(PendingTask(qos, 1))
    ensures d.store.tasks == map[1 := NewTask(handler, 1, content, qos)]
  {
    d := new TaskDispatcher();
    var id := d.NextTaskId();
    d.AddTask(NewTask(handler, id, content, qos));
    FirstList(d.queue.index, handler);
  }

  /** A task whose handler was never registered is cancelled, reported and gone from the store. */
  method UnknownHandlerCancels(handler: string, content: TaskContent, qos: QualityOfService, outcome: Outcome)
    returns (processed: bool, reported: seq<TaskResult>, after: Option<Task>)
    ensures processed && reported == [TaskResult(1, Cancel)] && after == None
  {
    var d := WithOneTask(handler, content, qos);
    processed := d.ProcessNextTask(outcome);
    reported := d.results;
    after := d.ReadTask(1);
  }

  /** A task whose handler is registered ends in the state its run's outcome gives. */
  method RegisteredHandlerRuns(node: NodeType, content: TaskContent, qos: QualityOfService, outcome: Outcome)
    returns (processed: bool, reported: seq<TaskResult>)
    ensures processed && reported == [TaskResult(1, OutcomeState(outcome))]
  {
    var d := WithOneTask(node.name, content, qos);
    d.RegisterNode(node);
    processed := d.ProcessNextTask(outcome);
    reported := d.results;
  }

  /** A task cancelled before its turn reports `Cancel` and the call returns `false`. */
  method CancelledBeforeRun(handler: string, content: TaskContent, qos: QualityOfService, outcome: Outcome)
    returns (processed: bool, reported: seq<TaskResult>)
    ensures !processed && reported == [TaskResult(1, Cancel)]
  {
    var d := WithOneTask(handler, content, qos);
    d.CancelTask(1);
    processed := d.ProcessNextTask(outcome);
    reported := d.results;
  }

  /**
   * Clearing the store leaves the queue as it was: the task reports
   * `Cancel` from the clear, and its queue entry is later popped to no
   * effect.
   */
  method ClearedTaskStaysQueued(handler: string, content: TaskContent, qos: QualityOfService, outcome: Outcome)
    returns (queued: bool, cleared: seq<TaskResult>, processed: bool, reported: seq<TaskResult>)
    ensures queued && TaskResult(1, Cancel) in cleared
    ensures !processed && reported == cleared
  {
    var d := WithOneTask(handler, content, qos);
    d.ClearTask();
    queued := d.queue.heap != [];
    cleared := d.results;
    processed := d.ProcessNextTask(outcome);
    reported := d.results;
  }

  /** After `stop` nothing is left to process. */
  method StopThenProcess(handler: string, content: TaskContent, qos: QualityOfService, outcome: Outcome)
    returns (signalled: seq<bool>, processed: bool)
    ensures signalled == [false, true] && !processed
  {
    var d := WithOneTask(handler, content, qos);
    d.Stop();
    signalled := d.signals;
    processed := d.ProcessNextTask(outcome);
  }
}
