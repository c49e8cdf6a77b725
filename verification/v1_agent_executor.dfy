/** The agent step executor of the `_v1` generation
    (`_v1/internal/worker/agent_step_executor.go`). The conversion of the
    step input to a protobuf struct and the `StartTask` call are oracle
    inputs; the shared channel of task-execution results is an explicit
    sequence of results, read in order. */
module V1AgentExecutor {
  import opened Wrappers
  import opened GoErrors
  import opened Json
  import Seqs

  /** The task config of a `_v1` step: its next step is a pointer. */
  datatype TaskStep = TaskStep(taskDefinitionId: string, nextStepId: Option<string>)

  datatype StepResult = StepResult(output: Option<JsonMap>, nextStepIds: seq<string>)

  /** `TaskExecutionResultType`: completion, failure, or anything else
      (such as a progress report). */
  datatype ResultType = Completion | Failure | OtherType

  /** `TaskExecutionResult`; the error of a failure may be nil. */
  datatype TaskExecutionResult = TaskExecutionResult(
    executionId: string,
    resultType: ResultType,
    output: Option<JsonMap>,
    error: Option<GoError>)

  /** What `execute` did: it waits forever when no result for its execution
      arrives; otherwise it returns a possibly nil result and a possibly nil
      error after consuming `consumed` results from the channel. */
  datatype Outcome =
    | Blocked
    | Returned(result: Option<StepResult>, err: Option<GoError>, consumed: nat)

  function NextIds(task: TaskStep): (r: seq<string>)
    ensures task.nextStepId.None? ==> r == []
    ensures task.nextStepId.Some? ==> r == [task.nextStepId.value]
  {
    match task.nextStepId
    case None => []
    case Some(id) => [id]
  }

  /** The first result on the channel that belongs to `executionId`. */
  function FirstMatch(events: seq<TaskExecutionResult>, executionId: string): Option<nat> {
    Seqs.FirstIndex(events, (e: TaskExecutionResult) => e.executionId == executionId)
  }

  /** `execute`: `conversion` is the error of `structpb.NewStruct` on the
      step input, `start` the execution id `StartTask` returns or its error. */
  method AgentExecute(task: TaskStep, conversion: Option<GoError>, start: Result<string, GoError>,
                      events: seq<TaskExecutionResult>) returns (r: Outcome)
    ensures conversion.Some? ==> r == Returned(None, conversion, 0)
    ensures conversion.None? && start.Err? ==> r == Returned(None, Some(start.error), 0)
    ensures conversion.None? && start.Ok? ==>
      match FirstMatch(events, start.value)
      case None => r == Blocked
      case Some(i) =>
        && r.Returned? && r.consumed == i + 1
        && (events[i].resultType == Completion ==>
              r.result == Some(StepResult(events[i].output, NextIds(task))) && r.err.None?)
        && (events[i].resultType == Failure ==> r.result.None? && r.err == events[i].error)
        && (events[i].resultType == OtherType ==> r.result == Some(StepResult(None, NextIds(task))) && r.err.None?)
  {
    if conversion.Some? {
      return Returned(None, conversion, 0);
    }
    if start.Err? {
      return Returned(None, Some(start.error), 0);
    }
    var executionId := start.value;
    var i := 0;
    while i < |events| && events[i].executionId != executionId
      invariant i <= |events|
      invariant forall k :: 0 <= k < i ==> events[k].executionId != executionId
    {
      i := i + 1;
    }
    if i == |events| {
      return Blocked;
    }
    assert FirstMatch(events, executionId) == Some(i);
    var output: Option<JsonMap> := None;
    if events[i].resultType == Completion {
      output := events[i].output;
    } else if events[i].resultType == Failure {
      return Returned(None, events[i].error, i + 1);
    }
    r := Returned(Some(StepResult(output, NextIds(task))), None, i + 1);
  }

  /** Results for other executions before the first matching one are
      consumed and dropped: prepending one does not change what is
      returned, only how much is consumed. */
  lemma ForeignResultsDiscarded(events: seq<TaskExecutionResult>, other: TaskExecutionResult, executionId: string)
    requires other.executionId != executionId
    ensures FirstMatch([other] + events, executionId)
         == (match FirstMatch(events, executionId) case None => None case Some(i) => Some(i + 1))
  {
    assert ([other] + events)[1..] == events;
  }
}
