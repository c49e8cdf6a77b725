/** The step and workflow executors of the `engine` generation
    (`engine/internal/service/step_executor.go`,
    `engine/internal/service/workflow_executor.go`). A run of `startStep` is
    the transcript of what it does to the outside world, in order: results
    sent to the workflow's channel, step-instance updates, outputs
    published, `Next` and `End` calls. The step-instance lookup, the type
    executor's result, each `Next` call's error and which channels exist are
    oracle inputs. Update errors are only logged by the source, so an update
    is recorded as issued whatever its outcome. */
module EngineStepExecutor {
  import opened Wrappers
  import opened GoErrors
  import opened Json
  import UJ = UnknownJson
  import M = EngineModels
  import Fifo
  import T = EngineTypeExecutors

  const ErrWorkflowQueueFull: string := "workflow queue is full"

  /** The queue sizes and parallelism bounds of `WorkflowEngineConfig`. */
  datatype Config = Config(maxWorkflowQueueSize: nat, maxParallelWorkflows: nat, maxStepQueueSize: nat, maxParallelSteps: nat)

  // ---------------------------------------------------------------------------
  // The step executor: its type-executor registry and its queue

  /** The registered `StepTypeExecutor` implementations. */
  datatype TypeExecutor = ForkExecutor | JoinExecutor | WaitExecutor | AgentExecutor

  /** `StepExecution`: `Next` and `End` are the callbacks whose calls the
      transcript records. */
  datatype StepExecution = StepExecution(
    stepInstanceId: string,
    workflowInstanceId: string,
    stepDef: M.StepDefinition,
    input: Option<JsonMap>)

  /** `StepExecutor`: its registry, its queue of executions and the number
      of steps it runs at once (the semaphore's size). */
  datatype StepExecutor = StepExecutor(
    typeExecutors: map<string, TypeExecutor>,
    taskQueue: Fifo.Queue<StepExecution>,
    parallelSteps: nat)

  /** `NewStepExecutor`: the queue is sized by the workflow-queue limit, not
      the step-queue one. */
  function NewStepExecutor(config: Config): (r: StepExecutor)
    ensures r.typeExecutors == map[]
    ensures r.taskQueue.items == [] && r.taskQueue.capacity == config.maxWorkflowQueueSize
    ensures r.parallelSteps == config.maxParallelSteps
  {
    StepExecutor(map[], Fifo.Empty(config.maxWorkflowQueueSize), config.maxParallelSteps)
  }

  /** `RegisterTypeExecutor`: the executor replaces any earlier one for the
      type. */
  function RegisterTypeExecutor(se: StepExecutor, stepType: string, executor: TypeExecutor): (r: StepExecutor)
    ensures r.typeExecutors.Keys == se.typeExecutors.Keys + {stepType}
    ensures r.typeExecutors[stepType] == executor
    ensures forall t :: t in se.typeExecutors && t != stepType ==> r.typeExecutors[t] == se.typeExecutors[t]
    ensures r.taskQueue == se.taskQueue && r.parallelSteps == se.parallelSteps
  {
    se.(typeExecutors := se.typeExecutors[stepType := executor])
  }

  /** `GetTypeExecutor`: the executor and whether one is registered. */
  function GetTypeExecutor(se: StepExecutor, stepType: string): (r: Option<TypeExecutor>)
    ensures r.Some? <==> stepType in se.typeExecutors
    ensures r.Some? ==> r.value == se.typeExecutors[stepType]
  {
    if stepType in se.typeExecutors then Some(se.typeExecutors[stepType]) else None
  }

  /** The last registration for a type wins, and registering one type leaves
      every other type's executor as it was. */
  lemma RegisterThenGet(se: StepExecutor, stepType: string, executor: TypeExecutor, other: string)
    requires other != stepType
    ensures GetTypeExecutor(RegisterTypeExecutor(se, stepType, executor), stepType) == Some(executor)
    ensures GetTypeExecutor(RegisterTypeExecutor(se, stepType, executor), other) == GetTypeExecutor(se, other)
  {
  }

  /** `StepExecutor.Enqueue`, while `startWaiting` says whether the `Start`
      loop is blocked receiving from the task queue: a non-blocking send.
      With room the execution is buffered; on an unbuffered queue (a zero
      `MaxWorkflowQueueSize`, the default) it is handed to a waiting
      `Start`; otherwise the result is `ErrWorkflowQueueFull` and the queue
      is left as it was. */
  function EnqueueStep(se: StepExecutor, exec: StepExecution, startWaiting: bool): (r: (Option<GoError>, StepExecutor))
    requires Fifo.Valid(se.taskQueue)
    ensures r.0.None? <==> |se.taskQueue.items| < se.taskQueue.capacity || (se.taskQueue.capacity == 0 && startWaiting)
    ensures r.0.None? && se.taskQueue.capacity > 0 ==>
              r.1 == se.(taskQueue := Fifo.Queue(se.taskQueue.items + [exec], se.taskQueue.capacity))
    ensures r.0.None? && se.taskQueue.capacity == 0 ==> r.1 == se
    ensures r.0.Some? ==> r.0 == Some(New(ErrWorkflowQueueFull)) && r.1 == se
    ensures Fifo.Valid(r.1.taskQueue)
  {
    match Fifo.TryPush(se.taskQueue, exec, startWaiting)
    case Some(q) => (None, se.(taskQueue := q))
    case None => (Some(New(ErrWorkflowQueueFull)), se)
  }

  /** However large the step-queue limit, a fresh step executor rejects a
      step once the workflow-queue limit's worth is queued, unless that limit
      is zero and `Start` is waiting to take the step directly. */
  lemma StepQueueUsesWorkflowLimit(config: Config, execs: seq<StepExecution>, exec: StepExecution, startWaiting: bool)
    requires |execs| == config.maxWorkflowQueueSize
    ensures var se := NewStepExecutor(config);
            var full := se.(taskQueue := Fifo.Queue(execs, config.maxWorkflowQueueSize));
            EnqueueStep(full, exec, startWaiting).0
              == if config.maxWorkflowQueueSize == 0 && startWaiting then None else Some(New(ErrWorkflowQueueFull))
  {
  }

  // ---------------------------------------------------------------------------
  // startStep as a transcript

  /** `WorkflowExecutionResult` as the step executor sends it. */
  datatype WorkflowExecutionResult = WorkflowExecutionResult(success: bool, message: Option<string>)

  /** `StepResult`: a step's output, published under the step's name. */
  datatype StepResult = StepResult(stepId: string, output: Option<JsonMap>)

  /** The fields `startStep` sets in a `stepInstanceService.Update`. */
  datatype StepUpdate = StepUpdate(id: string, status: M.StepStatus, output: Option<UJ.UnknownJson>, errorMessage: Option<string>)

  /** One thing `startStep` does. `Stuck` is a send on a workflow channel
      that does not exist (a nil channel), which blocks for ever; `Crashed`
      is the panic of dereferencing a nil result. */
  datatype Effect =
    | ResultSent(workflowInstanceId: string, result: WorkflowExecutionResult)
    | StepUpdated(update: StepUpdate)
    | OutputPublished(workflowInstanceId: string, stepResult: StepResult)
    | NextCalled(stepId: string)
    | Ended
    | Stuck
    | Crashed

  /** The outside world of one `startStep`: the step instance `GetByID`
      returns, what the type executor's `Execute` returns, the error of the
      `Next` call for each position of the next ids, and the workflow ids
      that have a result channel and an output channel. */
  datatype StepOracle = StepOracle(
    lookup: Result<M.StepInstance, GoError>,
    execute: Result<Option<T.StepExecutionResult>, GoError>,
    next: nat -> Option<GoError>,
    workflowChans: set<string>,
    outputChans: set<string>)

  const MsgRetrieveFailed: string := "Failed to retrieve step instance"
  const MsgNoExecutor: string := "No executor for step type: "
  const MsgExecutionFailed: string := "Step execution failed: "
  const MsgNextFailed: string := "failed to execute step: "

  function Failure(message: string): WorkflowExecutionResult {
    WorkflowExecutionResult(false, Some(message))
  }

  /** `failStepInstance`: the failure is sent first, then the instance is
      set to FAILED with the message. */
  function FailStepInstance(exec: StepExecution, message: string, chans: set<string>): seq<Effect> {
    if exec.workflowInstanceId in chans then
      [ResultSent(exec.workflowInstanceId, Failure(message)),
       StepUpdated(StepUpdate(exec.stepInstanceId, M.StepFailed, None, Some(message)))]
    else [Stuck]
  }

  /** The loop over the next ids from position `k`: each id is passed to
      `Next`; a failing call sends a failure and the loop goes on. */
  function NextLoop(wid: string, ids: seq<string>, o: StepOracle, k: nat): (r: seq<Effect>)
    requires k <= |ids|
    ensures Crashed !in r && Ended !in r
    ensures Stuck in r <==> wid !in o.workflowChans && exists j :: k <= j < |ids| && o.next(j).Some?
    decreases |ids| - k
  {
    if k == |ids| then []
    else if o.next(k).None? then [NextCalled(ids[k])] + NextLoop(wid, ids, o, k + 1)
    else if wid in o.workflowChans then
      [NextCalled(ids[k]), ResultSent(wid, Failure(MsgNextFailed + ids[k]))] + NextLoop(wid, ids, o, k + 1)
    else [NextCalled(ids[k]), Stuck]
  }

  /** The deferred `End` runs when `startStep` returns, so not after a send
      that blocks for ever. */
  function ThenEnd(effects: seq<Effect>): seq<Effect> {
    if Stuck in effects then effects else effects + [Ended]
  }

  /** `startStep`. */
  function StartStep(exec: StepExecution, executors: map<string, TypeExecutor>, o: StepOracle): (r: seq<Effect>)
    ensures Crashed in r <==> o.lookup.Ok? && exec.stepDef.stepType in executors && o.execute == Ok(None)
  {
    match o.lookup
    case Err(_) => FailStepInstance(exec, MsgRetrieveFailed, o.workflowChans)
    case Ok(si) =>
      if exec.stepDef.stepType !in executors then
        FailStepInstance(exec, MsgNoExecutor + exec.stepDef.stepType, o.workflowChans)
      else
        var running := StepUpdated(StepUpdate(exec.stepInstanceId, M.StepRunning, None, None));
        match o.execute
        case Err(e) =>
          [running] + ThenEnd(FailStepInstance(exec, MsgExecutionFailed + ErrorString(e), o.workflowChans))
        case Ok(None) => [running, Ended, Crashed]
        case Ok(Some(res)) =>
          SuccessPrefix(exec, si, res, o) + ThenEnd(NextLoop(si.workflowInstanceId, res.nextStepIds.GetOr([]), o, 0))
  }

  /** What a successful `Execute` is followed by before the next ids: the
      RUNNING and COMPLETED updates and, if the workflow has an output
      channel, the published output. */
  function SuccessPrefix(exec: StepExecution, si: M.StepInstance, res: T.StepExecutionResult, o: StepOracle): seq<Effect> {
    [StepUpdated(StepUpdate(exec.stepInstanceId, M.StepRunning, None, None)),
     StepUpdated(StepUpdate(si.id, M.StepCompleted, UJ.FromMap(res.output), None))]
    + (if si.workflowInstanceId in o.outputChans
       then [OutputPublished(si.workflowInstanceId, StepResult(exec.stepDef.name, res.output))]
       else [])
  }

  // ---------------------------------------------------------------------------
  // Views of a transcript

  /** The ids passed to `Next`, in order. */
  function Called(effects: seq<Effect>): (r: seq<string>)
    ensures |r| <= |effects|
  {
    if |effects| == 0 then []
    else (if effects[0].NextCalled? then [effects[0].stepId] else []) + Called(effects[1..])
  }

  /** The results sent to workflow channels, in order. */
  function Sent(effects: seq<Effect>): (r: seq<WorkflowExecutionResult>)
    ensures |r| <= |effects|
  {
    if |effects| == 0 then []
    else (if effects[0].ResultSent? then [effects[0].result] else []) + Sent(effects[1..])
  }

  /** How many times `End` is called. */
  function Ends(effects: seq<Effect>): (n: nat)
    ensures n <= |effects|
    ensures n == 0 <==> Ended !in effects
  {
    if |effects| == 0 then 0 else (if effects[0] == Ended then 1 else 0) + Ends(effects[1..])
  }

  lemma {:induction false} ViewsAppend(a: seq<Effect>, b: seq<Effect>)
    ensures Called(a + b) == Called(a) + Called(b)
    ensures Sent(a + b) == Sent(a) + Sent(b)
    ensures Ends(a + b) == Ends(a) + Ends(b)
    decreases |a|
  {
    if |a| > 0 {
      assert (a + b)[1..] == a[1..] + b;
      ViewsAppend(a[1..], b);
    } else {
      assert a + b == b;
    }
  }

  /** The failure messages the loop sends from position `k` on: one per
      failing `Next`, naming its id. */
  function NextFailures(ids: seq<string>, o: StepOracle, k: nat): seq<WorkflowExecutionResult>
    requires k <= |ids|
    decreases |ids| - k
  {
    if k == |ids| then []
    else (if o.next(k).Some? then [Failure(MsgNextFailed + ids[k])] else []) + NextFailures(ids, o, k + 1)
  }

  /** With the workflow's channel present, the loop calls `Next` once per
      id in order, whether earlier calls failed or not, sends exactly one
      failure per failing call, and neither blocks nor calls `End`. */
  lemma NextLoopCallsEveryId(wid: string, ids: seq<string>, o: StepOracle, k: nat)
    requires k <= |ids| && wid in o.workflowChans
    ensures var effects := NextLoop(wid, ids, o, k);
            && Called(effects) == ids[k..]
            && Sent(effects) == NextFailures(ids, o, k)
            && Stuck !in effects && Ends(effects) == 0
            && forall e :: e in effects ==> !e.StepUpdated?
  {
    NextLoopViews(wid, ids, o, k);
    NextLoopNoUpdates(wid, ids, o, k);
  }

  lemma {:induction false} NextLoopViews(wid: string, ids: seq<string>, o: StepOracle, k: nat)
    requires k <= |ids| && wid in o.workflowChans
    ensures Called(NextLoop(wid, ids, o, k)) == ids[k..]
    ensures Sent(NextLoop(wid, ids, o, k)) == NextFailures(ids, o, k)
    decreases |ids| - k
  {
    if k < |ids| {
      NextLoopViews(wid, ids, o, k + 1);
      var rest := NextLoop(wid, ids, o, k + 1);
      var head := if o.next(k).None? then [NextCalled(ids[k])]
                  else [NextCalled(ids[k]), ResultSent(wid, Failure(MsgNextFailed + ids[k]))];
      assert NextLoop(wid, ids, o, k) == head + rest;
      ViewsAppend(head, rest);
      assert ids[k..] == [ids[k]] + ids[k + 1..];
      if o.next(k).Some? {
        assert Called(head) == [ids[k]] by {
          assert head[1..] == [ResultSent(wid, Failure(MsgNextFailed + ids[k]))];
        }
        assert Sent(head) == [Failure(MsgNextFailed + ids[k])] by {
          assert head[1..] == [ResultSent(wid, Failure(MsgNextFailed + ids[k]))];
        }
      }
    } else {
      assert ids[k..] == [];
    }
  }

  lemma {:induction false} NextLoopNoUpdates(wid: string, ids: seq<string>, o: StepOracle, k: nat)
    requires k <= |ids|
    ensures forall e :: e in NextLoop(wid, ids, o, k) ==> !e.StepUpdated?
    decreases |ids| - k
  {
    if k < |ids| {
      NextLoopNoUpdates(wid, ids, o, k + 1);
    }
  }

  /** A missing step instance or a type without executor ends the step with
      the failure alone: nothing is executed, `Next` and `End` are never
      called. */
  lemma StartStepEarlyFailure(exec: StepExecution, executors: map<string, TypeExecutor>, o: StepOracle)
    requires o.lookup.Err? || exec.stepDef.stepType !in executors
    requires exec.workflowInstanceId in o.workflowChans
    ensures var msg := if o.lookup.Err? then MsgRetrieveFailed else MsgNoExecutor + exec.stepDef.stepType;
            StartStep(exec, executors, o) ==
              [ResultSent(exec.workflowInstanceId, Failure(msg)),
               StepUpdated(StepUpdate(exec.stepInstanceId, M.StepFailed, None, Some(msg)))]
    ensures Called(StartStep(exec, executors, o)) == [] && Ends(StartStep(exec, executors, o)) == 0
  {
    var r := StartStep(exec, executors, o);
    assert r[1..][1..] == [];
  }

  /** An `Execute` error: the step was set running, then the failure naming
      the error is sent, the step set FAILED with it, and `End` called. */
  lemma StartStepExecuteError(exec: StepExecution, executors: map<string, TypeExecutor>, o: StepOracle)
    requires o.lookup.Ok? && exec.stepDef.stepType in executors && o.execute.Err?
    requires exec.workflowInstanceId in o.workflowChans
    ensures var msg := MsgExecutionFailed + ErrorString(o.execute.error);
            StartStep(exec, executors, o) ==
              [StepUpdated(StepUpdate(exec.stepInstanceId, M.StepRunning, None, None)),
               ResultSent(exec.workflowInstanceId, Failure(msg)),
               StepUpdated(StepUpdate(exec.stepInstanceId, M.StepFailed, None, Some(msg))),
               Ended]
  {
  }

  /** Once `Execute` has run, `End` is called exactly once, after
      everything else but a crash, unless a send blocked for ever. */
  lemma StartStepEndsOnce(exec: StepExecution, executors: map<string, TypeExecutor>, o: StepOracle)
    requires o.lookup.Ok? && exec.stepDef.stepType in executors
    ensures var r := StartStep(exec, executors, o);
            && (Stuck !in r ==> Ends(r) == 1)
            && (Stuck in r ==> Ends(r) == 0)
            && (Stuck !in r && o.execute != Ok(None) ==> r[|r| - 1] == Ended)
  {
    var running := StepUpdated(StepUpdate(exec.stepInstanceId, M.StepRunning, None, None));
    match o.execute
    case Err(e) =>
      var f := FailStepInstance(exec, MsgExecutionFailed + ErrorString(e), o.workflowChans);
      assert Ends(f) == 0 by {
        if |f| == 2 {
          assert f[1..][1..] == [];
        }
      }
      ThenEndCounts([running], f);
    case Ok(None) =>
      var r := StartStep(exec, executors, o);
      assert r[1..][1..][1..] == [];
    case Ok(Some(res)) =>
      var si := o.lookup.value;
      var loop := NextLoop(si.workflowInstanceId, res.nextStepIds.GetOr([]), o, 0);
      LoopNeverEnds(si.workflowInstanceId, res.nextStepIds.GetOr([]), o, 0);
      QuietViews(SuccessPrefix(exec, si, res, o));
      ThenEndCounts(SuccessPrefix(exec, si, res, o), loop);
  }

  /** Effects that are neither `Next` calls, sends nor `End` leave every
      view empty. */
  lemma {:induction false} QuietViews(s: seq<Effect>)
    requires forall e :: e in s ==> !e.NextCalled? && !e.ResultSent? && e != Ended
    ensures Called(s) == [] && Sent(s) == [] && Ends(s) == 0
    decreases |s|
  {
    if |s| > 0 {
      assert forall e :: e in s[1..] ==> e in s;
      QuietViews(s[1..]);
    }
  }

  /** A prefix without `End` or a blocked send, followed by a deferred
      `End` after a part without `End`. */
  lemma ThenEndCounts(prefix: seq<Effect>, body: seq<Effect>)
    requires Ends(prefix) == 0 && Ends(body) == 0 && Stuck !in prefix
    ensures var r := prefix + ThenEnd(body);
            && (Stuck !in r ==> Ends(r) == 1 && r[|r| - 1] == Ended)
            && (Stuck in r ==> Ends(r) == 0)
  {
    ViewsAppend(prefix, ThenEnd(body));
    ViewsAppend(body, [Ended]);
  }

  lemma {:induction false} LoopNeverEnds(wid: string, ids: seq<string>, o: StepOracle, k: nat)
    requires k <= |ids|
    ensures Ends(NextLoop(wid, ids, o, k)) == 0
    decreases |ids| - k
  {
    if k < |ids| {
      LoopNeverEnds(wid, ids, o, k + 1);
      var rest := NextLoop(wid, ids, o, k + 1);
      if o.next(k).None? {
        ViewsAppend([NextCalled(ids[k])], rest);
      } else if wid in o.workflowChans {
        ViewsAppend([NextCalled(ids[k]), ResultSent(wid, Failure(MsgNextFailed + ids[k]))], rest);
      } else {
        assert NextLoop(wid, ids, o, k)[1..][1..] == [];
      }
    }
  }

  /** A successful `Execute`: the step goes RUNNING then COMPLETED with its
      output, and the output is published under the step's name exactly
      when the workflow has an output channel. */
  lemma StartStepSuccessUpdates(exec: StepExecution, executors: map<string, TypeExecutor>, o: StepOracle)
    requires o.lookup.Ok? && exec.stepDef.stepType in executors && o.execute.Ok? && o.execute.value.Some?
    ensures var r := StartStep(exec, executors, o);
            var si := o.lookup.value;
            var res := o.execute.value.value;
            && |r| >= 2
            && r[0] == StepUpdated(StepUpdate(exec.stepInstanceId, M.StepRunning, None, None))
            && r[1] == StepUpdated(StepUpdate(si.id, M.StepCompleted, UJ.FromMap(res.output), None))
            && (OutputPublished(si.workflowInstanceId, StepResult(exec.stepDef.name, res.output)) in r <==> si.workflowInstanceId in o.outputChans)
  {
    var si := o.lookup.value;
    var res := o.execute.value.value;
    var ids := res.nextStepIds.GetOr([]);
    var prefix := SuccessPrefix(exec, si, res, o);
    var loop := NextLoop(si.workflowInstanceId, ids, o, 0);
    var out := OutputPublished(si.workflowInstanceId, StepResult(exec.stepDef.name, res.output));
    assert StartStep(exec, executors, o) == prefix + ThenEnd(loop);
    forall e | e in loop
      ensures !e.OutputPublished?
    {
      LoopPublishesNothing(si.workflowInstanceId, ids, o, 0, e);
    }
    assert out !in ThenEnd(loop);
    assert out in prefix <==> si.workflowInstanceId in o.outputChans;
  }

  /** With the workflow's channel present, every next id is passed to
      `Next` in order, and only failing calls send a result. */
  lemma StartStepSuccessCalls(exec: StepExecution, executors: map<string, TypeExecutor>, o: StepOracle)
    requires o.lookup.Ok? && exec.stepDef.stepType in executors && o.execute.Ok? && o.execute.value.Some?
    requires o.lookup.value.workflowInstanceId in o.workflowChans
    ensures var r := StartStep(exec, executors, o);
            var ids := o.execute.value.value.nextStepIds.GetOr([]);
            Called(r) == ids && Sent(r) == NextFailures(ids, o, 0)
  {
    var si := o.lookup.value;
    var res := o.execute.value.value;
    var ids := res.nextStepIds.GetOr([]);
    var prefix := SuccessPrefix(exec, si, res, o);
    var loop := NextLoop(si.workflowInstanceId, ids, o, 0);
    NextLoopCallsEveryId(si.workflowInstanceId, ids, o, 0);
    assert ids[0..] == ids;
    assert ThenEnd(loop) == loop + [Ended];
    ViewsAppend(prefix, loop + [Ended]);
    ViewsAppend(loop, [Ended]);
    QuietViews(prefix);
  }

  lemma {:induction false} LoopPublishesNothing(wid: string, ids: seq<string>, o: StepOracle, k: nat, e: Effect)
    requires k <= |ids| && e in NextLoop(wid, ids, o, k)
    ensures !e.OutputPublished?
    decreases |ids| - k
  {
    if k < |ids| && e in NextLoop(wid, ids, o, k + 1) {
      LoopPublishesNothing(wid, ids, o, k + 1, e);
    }
  }

  /** Nil or empty next ids: no `Next` call and no result sent. */
  lemma StartStepWithoutSuccessors(exec: StepExecution, executors: map<string, TypeExecutor>, o: StepOracle)
    requires o.lookup.Ok? && exec.stepDef.stepType in executors && o.execute.Ok? && o.execute.value.Some?
    requires o.execute.value.value.nextStepIds.GetOr([]) == []
    requires o.lookup.value.workflowInstanceId in o.workflowChans
    ensures Called(StartStep(exec, executors, o)) == [] && Sent(StartStep(exec, executors, o)) == []
  {
    StartStepSuccessCalls(exec, executors, o);
  }

  // ---------------------------------------------------------------------------
  // The workflow executor

  datatype WorkflowExecution = WorkflowExecution(workflowInstanceId: string)

  datatype WorkflowExecutor = WorkflowExecutor(taskQueue: Fifo.Queue<WorkflowExecution>, parallelWorkflows: nat)

  /** `NewWorkflowExecutor`. */
  function NewWorkflowExecutor(config: Config): (r: WorkflowExecutor)
    ensures r.taskQueue.items == [] && r.taskQueue.capacity == config.maxWorkflowQueueSize
    ensures r.parallelWorkflows == config.maxParallelWorkflows
  {
    WorkflowExecutor(Fifo.Empty(config.maxWorkflowQueueSize), config.maxParallelWorkflows)
  }

  /** `WorkflowExecutor.Enqueue`. The Go code repeats `StepExecutor.Enqueue`
      line for line, including the `ErrWorkflowQueueFull` error, so this is
      `EnqueueStep` on the workflow executor's queue. */
  function EnqueueWorkflow(we: WorkflowExecutor, exec: WorkflowExecution, startWaiting: bool): (r: (Option<GoError>, WorkflowExecutor))
    requires Fifo.Valid(we.taskQueue)
    ensures r.0.None? <==> |we.taskQueue.items| < we.taskQueue.capacity || (we.taskQueue.capacity == 0 && startWaiting)
    ensures r.0.None? && we.taskQueue.capacity > 0 ==>
              r.1 == we.(taskQueue := Fifo.Queue(we.taskQueue.items + [exec], we.taskQueue.capacity))
    ensures r.0.None? && we.taskQueue.capacity == 0 ==> r.1 == we
    ensures r.0.Some? ==> r.0 == Some(New(ErrWorkflowQueueFull)) && r.1 == we
    ensures Fifo.Valid(r.1.taskQueue)
  {
    match Fifo.TryPush(we.taskQueue, exec, startWaiting)
    case Some(q) => (None, we.(taskQueue := q))
    case None => (Some(New(ErrWorkflowQueueFull)), we)
  }

  /** The fields `failWorkflowInstance` sets. */
  datatype WorkflowUpdate = WorkflowUpdate(id: string, status: M.WorkflowStatus, errorMessage: Option<string>)

  const MsgWorkflowRetrieveFailed: string := "Failed to retrieve workflow instance"

  /** `failWorkflowInstance`: the instance becomes FAILED with the message. */
  function FailWorkflowInstance(exec: WorkflowExecution, message: string): (r: WorkflowUpdate)
    ensures r.id == exec.workflowInstanceId && r.status == M.WorkflowFailed && r.errorMessage == Some(message)
  {
    WorkflowUpdate(exec.workflowInstanceId, M.WorkflowFailed, Some(message))
  }

  /** `startWorkflow`: the updates it issues. A failed lookup fails the
      instance; a successful one only sleeps. */
  function StartWorkflow(exec: WorkflowExecution, lookup: Result<M.WorkflowInstance, GoError>): (r: seq<WorkflowUpdate>)
    ensures r != [] <==> lookup.Err?
    ensures lookup.Err? ==> r == [FailWorkflowInstance(exec, MsgWorkflowRetrieveFailed)]
    ensures forall u :: u in r ==> u.status == M.WorkflowFailed && u.id == exec.workflowInstanceId
  {
    if lookup.Err? then [FailWorkflowInstance(exec, MsgWorkflowRetrieveFailed)] else []
  }

  /** An execution the workflow executor accepts is the next one `Start`
      receives after those already queued, whether it was buffered or handed
      over directly; starting it touches only its own instance: a failed
      lookup fails exactly the instance that was enqueued. */
  lemma EnqueueThenStart(we: WorkflowExecutor, exec: WorkflowExecution, startWaiting: bool, lookup: Result<M.WorkflowInstance, GoError>)
    requires Fifo.Valid(we.taskQueue)
    ensures var r := EnqueueWorkflow(we, exec, startWaiting);
            var received := (if Fifo.HandsOff(we.taskQueue, startWaiting) then [exec] else []) + Fifo.Drain(r.1.taskQueue);
            && (r.0.None? <==> Fifo.HasRoom(we.taskQueue) || Fifo.HandsOff(we.taskQueue, startWaiting))
            && (r.0.None? ==>
                  && received == we.taskQueue.items + [exec]
                  && StartWorkflow(received[|we.taskQueue.items|], lookup)
                     == (if lookup.Err? then [WorkflowUpdate(exec.workflowInstanceId, M.WorkflowFailed, Some(MsgWorkflowRetrieveFailed))] else []))
  {
    if EnqueueWorkflow(we, exec, startWaiting).0.None? {
      Fifo.TryPushDelivers(we.taskQueue, exec, startWaiting);
    }
  }
}
