/** The queues of the root generation: the generic non-blocking
    `MemoryQueue` (`internal/queue/memory_queue.go`), the agent's task queue
    (`internal/agent/queue.go`) and the blocking step and workflow queues
    (`internal/queue/memory_step_queue.go`,
    `internal/queue/memory_workflow_queue.go`). Each is a buffered channel,
    modelled as a bounded FIFO; `Dequeue` hands out the channel, and a read
    from it is `Fifo.Pop`. */
module RootQueues {
  import opened Wrappers
  import opened GoErrors
  import Fifo
  import Semver

  // ---------------------------------------------------------------------------
  // MemoryQueue: fails when full, naming the buffer

  datatype MemoryQueue<T> = MemoryQueue(buffer: nat, ch: Fifo.Queue<T>)

  /** The channel's buffer is the recorded `buffer`, and it is never
      over-full. */
  predicate MemoryQueueValid<T>(q: MemoryQueue<T>) {
    q.ch.capacity == q.buffer && Fifo.Valid(q.ch)
  }

  /** `NewMemoryQueue`; `make` panics on a negative buffer, so only
      non-negative sizes are modelled. */
  function NewMemoryQueue<T>(buffer: nat): (q: MemoryQueue<T>)
    ensures MemoryQueueValid(q) && q.ch.items == [] && q.buffer == buffer
  {
    MemoryQueue(buffer, Fifo.Empty(buffer))
  }

  function QueueFullMessage(buffer: nat): string {
    "Queue is full, exceeded buffer of " + Semver.IntToDecimal(buffer)
  }

  /** `MemoryQueue.Enqueue`, while `receiverWaiting` says whether a reader
      of the channel is blocked in a receive: appends and returns nil when
      there is room; on a zero buffer it hands the job to a waiting reader
      and returns nil; otherwise it returns an error naming the buffer and
      changes nothing. It never blocks. */
  function MemoryEnqueue<T>(q: MemoryQueue<T>, job: T, receiverWaiting: bool): (r: (Option<GoError>, MemoryQueue<T>))
    requires MemoryQueueValid(q)
    ensures r.0.None? <==> |q.ch.items| < q.buffer || (q.buffer == 0 && receiverWaiting)
    ensures r.0.None? && q.buffer > 0 ==> r.1 == q.(ch := q.ch.(items := q.ch.items + [job]))
    ensures r.0.None? && q.buffer == 0 ==> r.1 == q
    ensures r.0.Some? ==> r.0 == Some(New(QueueFullMessage(q.buffer))) && r.1 == q
    ensures MemoryQueueValid(r.1)
  {
    match Fifo.TryPush(q.ch, job, receiverWaiting)
    case Some(ch) => (None, q.(ch := ch))
    case None => (Some(New(QueueFullMessage(q.buffer))), q)
  }

  /** A receive from the channel `Dequeue` returns: the oldest job, or
      `None` while the queue is empty. */
  function MemoryDequeue<T>(q: MemoryQueue<T>): (r: Option<(T, MemoryQueue<T>)>)
    requires MemoryQueueValid(q)
    ensures r.None? <==> q.ch.items == []
    ensures r.Some? ==> r.value.0 == q.ch.items[0] && r.value.1.ch.items == q.ch.items[1..]
    ensures r.Some? ==> MemoryQueueValid(r.value.1) && r.value.1.buffer == q.buffer
  {
    match Fifo.Pop(q.ch)
    case None => None
    case Some((job, ch)) => Some((job, q.(ch := ch)))
  }

  /** The error of a full queue names its buffer in decimal. */
  lemma QueueFullNamesBuffer(buffer: nat)
    ensures var m := QueueFullMessage(buffer);
            var d := Semver.IntToDecimal(buffer);
            m[..|m| - |d|] == "Queue is full, exceeded buffer of "
            && Semver.DecimalValue(m[|m| - |d|..]) == buffer
  {
    var d := Semver.NatToDecimal(buffer);
    var m := QueueFullMessage(buffer);
    assert m[|m| - |d|..] == d;
    Semver.DecimalRoundTrip(buffer);
  }

  /** Whatever is enqueued, and however often, a queue never holds more jobs
      than its buffer, and a failed enqueue leaves it as it was. */
  lemma {:induction false} MemoryEnqueueAllBounded<T>(q: MemoryQueue<T>, jobs: seq<T>, waiting: seq<bool>)
    requires MemoryQueueValid(q) && |waiting| == |jobs|
    ensures var r := MemoryEnqueueAll(q, jobs, waiting);
            && MemoryQueueValid(r) && |r.ch.items| <= r.buffer && r.buffer == q.buffer
            && r.ch == Fifo.TryPushAll(q.ch, jobs, waiting).0
    decreases |jobs|
  {
    if |jobs| > 0 {
      var r := MemoryEnqueue(q, jobs[0], waiting[0]);
      MemoryEnqueueAllBounded(r.1, jobs[1..], waiting[1..]);
    }
  }

  /** Enqueueing `jobs` one after another, ignoring the errors; `waiting[i]`
      says whether a reader is waiting at the `i`th enqueue. */
  function MemoryEnqueueAll<T>(q: MemoryQueue<T>, jobs: seq<T>, waiting: seq<bool>): (r: MemoryQueue<T>)
    requires MemoryQueueValid(q) && |waiting| == |jobs|
    ensures MemoryQueueValid(r)
    decreases |jobs|
  {
    if |jobs| == 0 then q else MemoryEnqueueAll(MemoryEnqueue(q, jobs[0], waiting[0]).1, jobs[1..], waiting[1..])
  }

  // ---------------------------------------------------------------------------
  // The agent's TaskQueue: fails when full with a fixed message

  const ErrTaskQueueFull: string := "task queue is full"

  /** `TaskQueue.Enqueue`, while `receiverWaiting` says whether a worker is
      blocked reading the task channel: buffered when there is room, handed
      to the waiting worker on a zero buffer, refused otherwise. */
  function TaskEnqueue<T>(q: Fifo.Queue<T>, task: T, receiverWaiting: bool): (r: (Option<GoError>, Fifo.Queue<T>))
    requires Fifo.Valid(q)
    ensures r.0.None? <==> |q.items| < q.capacity || (q.capacity == 0 && receiverWaiting)
    ensures r.0.None? && q.capacity > 0 ==> r.1.items == q.items + [task] && r.1.capacity == q.capacity
    ensures r.0.None? && q.capacity == 0 ==> r.1 == q
    ensures r.0.Some? ==> r.0 == Some(New(ErrTaskQueueFull)) && r.1 == q
    ensures Fifo.Valid(r.1)
  {
    match Fifo.TryPush(q, task, receiverWaiting)
    case Some(q1) => (None, q1)
    case None => (Some(New(ErrTaskQueueFull)), q)
  }

  /** A receive from the channel `TaskQueue.Dequeue` returns. */
  function TaskDequeue<T>(q: Fifo.Queue<T>): (r: Option<(T, Fifo.Queue<T>)>)
    requires Fifo.Valid(q)
    ensures r.None? <==> q.items == []
    ensures r.Some? ==> r.value.0 == q.items[0] && r.value.1.items == q.items[1..]
    ensures r.Some? ==> Fifo.Valid(r.value.1) && r.value.1.capacity == q.capacity
  {
    Fifo.Pop(q)
  }

  /** Tasks come out of the task queue in the order they went in. */
  lemma TaskQueueFifo<T>(a: T, b: T, capacity: nat)
    requires capacity >= 2
    ensures var q0 := Fifo.Empty<T>(capacity);
            var q2 := TaskEnqueue(TaskEnqueue(q0, a, false).1, b, false).1;
            && TaskDequeue(q2).Some? && TaskDequeue(q2).value.0 == a
            && TaskDequeue(TaskDequeue(q2).value.1).Some?
            && TaskDequeue(TaskDequeue(q2).value.1).value.0 == b
  {
    var q0 := Fifo.Empty<T>(capacity);
    var q2 := TaskEnqueue(TaskEnqueue(q0, a, false).1, b, false).1;
    assert q2.items == [a, b];
  }

  // ---------------------------------------------------------------------------
  // The blocking step and workflow queues

  /** `memoryStepQueue.Enqueue` / `memoryWorkflowQueue.Enqueue`: a plain send
      that would block on a full channel, so only a queue with room is
      modelled; the error is always nil. */
  function BlockingEnqueue<T>(q: Fifo.Queue<T>, job: T): (r: (Option<GoError>, Fifo.Queue<T>))
    requires Fifo.Valid(q) && Fifo.HasRoom(q)
    ensures r.0.None?
    ensures r.1.items == q.items + [job] && r.1.capacity == q.capacity && Fifo.Valid(r.1)
  {
    (None, Fifo.Push(q, job))
  }

  /** A receive from the channel the blocking queues' `Dequeue` returns. */
  function BlockingDequeue<T>(q: Fifo.Queue<T>): (r: Option<(T, Fifo.Queue<T>)>)
    requires Fifo.Valid(q)
    ensures r.None? <==> q.items == []
    ensures r.Some? ==> r.value.0 == q.items[0] && r.value.1.items == q.items[1..]
    ensures r.Some? ==> Fifo.Valid(r.value.1) && Fifo.HasRoom(r.value.1)
  {
    Fifo.Pop(q)
  }

  /** Jobs sent to a blocking queue with room for all of them are received in
      sending order. */
  lemma BlockingQueueFifo<T>(capacity: nat, jobs: seq<T>)
    requires |jobs| <= capacity
    ensures Fifo.Drain(Fifo.PushAll(Fifo.Empty<T>(capacity), jobs)) == jobs
  {
    Fifo.FifoOrder(Fifo.Empty<T>(capacity), jobs);
  }
}
