/**
 * The task engine's value types: quality of service, the queued
 * (qos, id) pair and its ordering, task states, the task record and the
 * result a finished task reports.
 *
 * A task's one-shot result channel is reduced to whether each end is
 * still held (`ret`, `recv`); what travels over it is recorded by the
 * store and the dispatcher that send it.
 */
module TaskModel {
  import opened Wrappers

  /** Task ids are `u32`. */
  const U32_LIMIT: int := 0x1_0000_0000
  type TaskId = x: int | 0 <= x < U32_LIMIT

  /** The outcome of a three-way comparison. */
  datatype Ordering = Less | Equal | Greater
  {
    function Reverse(): Ordering
    {
      match this
      case Less => Greater
      case Equal => Equal
      case Greater => Less
    }
  }

  datatype QualityOfService = Background | UserInteractive

  /** User-interactive work ranks above background work. */
  function QosCmp(a: QualityOfService, b: QualityOfService): (r: Ordering)
    ensures r == Equal <==> a == b
    ensures r == Greater <==> a == UserInteractive && b == Background
  {
    match (a, b)
    case (UserInteractive, UserInteractive) => Equal
    case (UserInteractive, Background) => Greater
    case (Background, UserInteractive) => Less
    case (Background, Background) => Equal
  }

  /** A queued task as the queue sees it: its priority class and its id. */
  datatype PendingTask = PendingTask(qos: QualityOfService, id: TaskId)

  /** Equality of queued tasks looks at the id only. */
  predicate PendingEq(a: PendingTask, b: PendingTask)
  {
    a.id == b.id
  }

  function IdCmp(x: int, y: int): Ordering
  {
    if x < y then Less else if x == y then Equal else Greater
  }

  /** The heap order: quality of service first, the id breaks ties. */
  function PendingCmp(a: PendingTask, b: PendingTask): (r: Ordering)
    ensures r == Equal <==> a == b
    ensures r == Greater <==> (a.qos == UserInteractive && b.qos == Background) || (a.qos == b.qos && a.id > b.id)
    ensures r == Less <==> (a.qos == Background && b.qos == UserInteractive) || (a.qos == b.qos && a.id < b.id)
  {
    match QosCmp(a.qos, b.qos)
    case Equal => IdCmp(a.id, b.id)
    case x => x
  }

  /** `a <= b` in the heap order. */
  predicate PendingLe(a: PendingTask, b: PendingTask)
  {
    PendingCmp(a, b) != Greater
  }

  /** The heap order is lexicographic on (qos, id): a total order whose only ties are identical pairs. */
  lemma PendingOrder(a: PendingTask, b: PendingTask)
    ensures PendingCmp(a, b) == Equal <==> a == b
    ensures PendingCmp(a, b) == PendingCmp(b, a).Reverse()
    ensures PendingCmp(a, b) == Greater <==>
      (a.qos == UserInteractive && b.qos == Background) || (a.qos == b.qos && a.id > b.id)
  {
  }

  lemma PendingLeTransitive(a: PendingTask, b: PendingTask, c: PendingTask)
    requires PendingLe(a, b) && PendingLe(b, c)
    ensures PendingLe(a, c)
  {
  }

  /** Equality and the order disagree: two tasks with one id but different priorities are equal yet ordered. */
  lemma EqualityIgnoresQos(id: TaskId)
    ensures PendingEq(PendingTask(Background, id), PendingTask(UserInteractive, id))
    ensures PendingCmp(PendingTask(Background, id), PendingTask(UserInteractive, id)) == Less
  {
  }

  datatype TaskContent = Text(text: string) | Blob(bytes: seq<bv8>)

  datatype TaskState = Pending | Processing | Done | Failure | Cancel | Timeout
  {
    predicate IsPending() { this == Pending }
    predicate IsDone() { this == Done }
    predicate IsCancel() { this == Cancel }
    predicate IsProcessing() { this == Processing }
    predicate IsFailed() { this == Failure }
  }

  /**
   * A task. `ret` and `recv` say whether the task still holds the sending
   * and the receiving end of its result channel.
   */
  datatype Task = Task(
    id: TaskId,
    handlerId: string,
    content: Option<TaskContent>,
    qos: QualityOfService,
    state: TaskState,
    ret: bool,
    recv: bool)

  /** A fresh task: pending, with its content and both ends of a new channel. */
  function NewTask(handlerId: string, id: TaskId, content: TaskContent, qos: QualityOfService): (t: Task)
    ensures t.id == id && t.handlerId == handlerId && t.qos == qos
    ensures t.content == Some(content)
    ensures t.state.IsPending()
    ensures t.ret && t.recv
  {
    Task(id, handlerId, Some(content), qos, Pending, true, true)
  }

  /** A copy of a task without its channel ends, which cannot be copied. */
  function CloneTask(t: Task): (c: Task)
    ensures c.id == t.id && c.handlerId == t.handlerId && c.content == t.content
    ensures c.qos == t.qos && c.state == t.state
    ensures !c.ret && !c.recv
  {
    Task(t.id, t.handlerId, t.content, t.qos, t.state, false, false)
  }

  /** `set_state` replaces the state and nothing else. */
  function SetState(t: Task, s: TaskState): (r: Task)
    ensures r.state == s
    ensures r.(state := t.state) == t
  {
    t.(state := s)
  }

  /** What a finished task reports over its channel. */
  datatype TaskResult = TaskResult(id: TaskId, state: TaskState)

  function ResultOf(t: Task): (r: TaskResult)
    ensures r.id == t.id && r.state == t.state
  {
    TaskResult(t.id, t.state)
  }

  /** Each state predicate holds for its own state only. */
  lemma StatePredicates(s: TaskState)
    ensures s.IsPending() <==> s == Pending
    ensures s.IsDone() <==> s == Done
    ensures s.IsCancel() <==> s == Cancel
    ensures s.IsProcessing() <==> s == Processing
    ensures s.IsFailed() <==> s == Failure
    ensures !(s.IsDone() && s.IsCancel())
  {
  }

  /** A clone of a fresh task keeps everything but the channel, and it reports the pending state. */
  lemma CloneOfNew(handlerId: string, id: TaskId, content: TaskContent, qos: QualityOfService)
    ensures CloneTask(NewTask(handlerId, id, content, qos)) == NewTask(handlerId, id, content, qos).(ret := false, recv := false)
    ensures ResultOf(CloneTask(NewTask(handlerId, id, content, qos))) == TaskResult(id, Pending)
  {
  }
}
