/** The step-type executors of the `engine` generation
    (`engine/internal/service/{fork,join,wait,agent}_step_executor.go`). Each
    `Execute` reads the config its step definition carries; a missing config
    is a nil dereference in the source, so each requires its config. The
    join's completion channel is an explicit sequence of step ids; the
    agent's registry lookups, input conversion, `StartTask` call and status
    notification are oracle inputs. Sleeps are dropped. */
module EngineTypeExecutors {
  import opened Wrappers
  import opened GoErrors
  import opened Json
  import M = EngineModels

  /** `StepExecutionResult` (declared in `step_executor.go`): both fields are
      pointers. */
  datatype StepExecutionResult = StepExecutionResult(nextStepIds: Option<seq<string>>, output: Option<JsonMap>)

  /** The next ids of a config with an optional next step: a slice with that
      one id, or an empty one; the pointer to it is never nil. */
  function NextOf(next: Option<string>): (r: seq<string>)
    ensures next.None? ==> r == []
    ensures next.Some? ==> r == [next.value]
  {
    match next
    case None => []
    case Some(id) => [id]
  }

  // ---------------------------------------------------------------------------
  // Fork

  /** `ForkStepExecutor.Execute`: one next id per branch, in branch order;
      empty ids are kept and no join id is added. */
  function ForkExecute(def: M.StepDefinition): (r: Result<StepExecutionResult, GoError>)
    requires def.forkConfig.Some?
    ensures r.Ok? && r.value.output.None? && r.value.nextStepIds.Some?
    ensures var ids := r.value.nextStepIds.value;
            var branches := def.forkConfig.value.branches;
            |ids| == |branches| && forall i :: 0 <= i < |ids| ==> ids[i] == branches[i].nextStepId
  {
    var branches := def.forkConfig.value.branches;
    Ok(StepExecutionResult(Some(seq(|branches|, i requires 0 <= i < |branches| => branches[i].nextStepId)), None))
  }

  /** A branch without a target still yields an (empty) next id. */
  lemma ForkKeepsEmptyTargets(def: M.StepDefinition, i: nat)
    requires def.forkConfig.Some? && i < |def.forkConfig.value.branches|
    requires def.forkConfig.value.branches[i].nextStepId == ""
    ensures "" in ForkExecute(def).value.nextStepIds.value
  {
    assert ForkExecute(def).value.nextStepIds.value[i] == "";
  }

  // ---------------------------------------------------------------------------
  // Join

  /** `contains`: a linear scan for `x`. */
  function Contains(s: seq<string>, x: string): (r: bool)
    ensures r <==> x in s
    decreases |s|
  {
    if |s| == 0 then false
    else if s[0] == x then true
    else Contains(s[1..], x)
  }

  /** Number of notifications in `events` for members of `incoming`. */
  function Members(incoming: seq<string>, events: seq<string>): (n: nat)
    ensures n <= |events|
    decreases |events|
  {
    if |events| == 0 then 0
    else Members(incoming, events[..|events| - 1]) + (if events[|events| - 1] in incoming then 1 else 0)
  }

  /** What a join did with the completion channel. `released` is whether
      `Execute` returned; `consumed` is how many notifications its listener
      goroutine read before stopping, or all of them while it still waits. */
  datatype JoinOutcome = JoinOutcome(released: bool, consumed: nat, result: Option<StepExecutionResult>)

  /** `JoinStepExecutor.Execute` with its listener: the counter starts at
      the number of incoming ids and drops once per member notification,
      repeats included; the listener checks for zero only after a read, so
      with no incoming ids it still reads one notification, while `Execute`
      returns at once. */
  method JoinExecute(def: M.StepDefinition, events: seq<string>) returns (r: JoinOutcome)
    requires def.joinConfig.Some?
    ensures var incoming := def.joinConfig.value.incomingStepIds;
            && r.consumed <= |events|
            && (r.released <==> |incoming| <= Members(incoming, events))
            && (r.released ==> r.result == Some(StepExecutionResult(Some(NextOf(def.joinConfig.value.nextStepId)), None)))
            && (!r.released ==> r.result.None? && r.consumed == |events|)
            && (r.released && |incoming| > 0 ==>
                  && Members(incoming, events[..r.consumed]) == |incoming|
                  && Members(incoming, events[..r.consumed - 1]) < |incoming|)
            && (|incoming| == 0 ==> r.consumed == (if |events| == 0 then 0 else 1))
  {
    var incoming := def.joinConfig.value.incomingStepIds;
    var count := |incoming|;
    var i := 0;
    var stopped := false;
    while i < |events| && !stopped
      invariant 0 <= i <= |events|
      invariant count == |incoming| - Members(incoming, events[..i])
      invariant count >= 0
      invariant stopped ==> count == 0 && i > 0
      invariant !stopped && i > 0 ==> count > 0
      invariant stopped && |incoming| > 0 ==> Members(incoming, events[..i - 1]) < |incoming|
      invariant |incoming| == 0 ==> (stopped <==> i > 0) && i <= 1
    {
      assert events[..i + 1][..i] == events[..i];
      var stepId := events[i];
      if Contains(incoming, stepId) {
        count := count - 1;
      }
      i := i + 1;
      if count == 0 {
        stopped := true;
      }
    }
    var released := |incoming| <= Members(incoming, events);
    if released {
      assert stopped || events[..i] == events;
      r := JoinOutcome(true, i, Some(StepExecutionResult(Some(NextOf(def.joinConfig.value.nextStepId)), None)));
    } else {
      assert !stopped by {
        if stopped {
          MembersMonotone(incoming, events, i);
        }
      }
      assert events[..i] == events;
      r := JoinOutcome(false, i, None);
    }
  }

  /** Counting members over a longer prefix never gives fewer. */
  lemma {:induction false} MembersMonotone(incoming: seq<string>, events: seq<string>, i: nat)
    requires i <= |events|
    ensures Members(incoming, events[..i]) <= Members(incoming, events)
    decreases |events| - i
  {
    if i < |events| {
      MembersMonotone(incoming, events, i + 1);
      assert events[..i + 1][..i] == events[..i];
    } else {
      assert events[..i] == events;
    }
  }

  /** A repeated member notification counts twice, so a join over two
      incoming ids releases on two notifications from the same step. */
  lemma JoinReleasesOnDuplicate()
    ensures Members(["a", "b"], ["a", "a"]) == 2
  {
    assert ["a", "a"][..1] == ["a"];
    assert ["a"][..0] == [];
  }

  // ---------------------------------------------------------------------------
  // Wait

  /** `WaitStepExecutor.Execute`: the next step, if any; the sleep is fixed
      and the configured duration is never read. */
  function WaitExecute(def: M.StepDefinition): (r: Result<StepExecutionResult, GoError>)
    requires def.waitConfig.Some?
    ensures r.Ok? && r.value.output.None?
    ensures r.value.nextStepIds == Some(NextOf(def.waitConfig.value.nextStepId))
  {
    Ok(StepExecutionResult(Some(NextOf(def.waitConfig.value.nextStepId)), None))
  }

  /** Changing the configured duration changes nothing. */
  lemma WaitIgnoresDuration(def: M.StepDefinition, d: M.StepDefinitionParameter)
    requires def.waitConfig.Some?
    ensures WaitExecute(def.(waitConfig := Some(def.waitConfig.value.(durationSeconds := d)))) == WaitExecute(def)
  {
  }

  // ---------------------------------------------------------------------------
  // Agent

  const ErrAgentNotFoundForTaskDefinition: string := "no registered agent found for the given task definition"
  const ErrAgentConnectorNotFound: string := "could not find a way to connect to the specified agent"

  /** `NotifyTaskStatusRequest`: the task, its reported status and its
      output parameters (a possibly nil protobuf struct). */
  datatype Notification = Notification(taskId: string, status: string, outputParameters: Option<JsonMap>)

  /** The outside world of one agent step: the agent `GetAgentByTaskName`
      finds, the agents with a connector, the error of converting the input
      to a protobuf struct, what `StartTask` answers (a task id or an error),
      and the notification that arrives for the task (None: it never
      arrives). */
  datatype AgentOracle = AgentOracle(
    agentForTask: Option<string>,
    connectors: set<string>,
    conversion: Option<GoError>,
    start: Result<string, GoError>,
    notification: Option<Notification>)

  /** The agent step's effect on the per-task channel map (as a key set):
      it waits forever, or it returns. */
  datatype AgentOutcome =
    | AgentWaiting(taskChans: set<string>)
    | AgentReturned(result: Result<StepExecutionResult, GoError>, taskChans: set<string>)

  /** `AgentStepExecutor.Execute`. A nil output struct converts to an empty
      map, so a returned output is never nil. */
  function AgentExecute(def: M.StepDefinition, o: AgentOracle, taskChans: set<string>): (r: AgentOutcome)
    requires def.taskConfig.Some?
    ensures o.agentForTask.None? ==> r == AgentReturned(Err(New(ErrAgentNotFoundForTaskDefinition)), taskChans)
    ensures o.agentForTask.Some? && o.agentForTask.value !in o.connectors ==>
              r == AgentReturned(Err(New(ErrAgentConnectorNotFound)), taskChans)
    ensures r.AgentReturned? && r.result.Err? ==> r.taskChans == taskChans
    ensures r.AgentReturned? && r.result.Ok? ==>
              && o.start.Ok? && o.notification.Some?
              && r.result.value.nextStepIds == Some(NextOf(def.taskConfig.value.nextStepId))
              && r.result.value.output == Some(o.notification.value.outputParameters.GetOr(map[]))
              && r.taskChans == taskChans - {o.start.value}
    ensures r.AgentWaiting? ==> o.start.Ok? && r.taskChans == taskChans + {o.start.value}
  {
    match o.agentForTask
    case None => AgentReturned(Err(New(ErrAgentNotFoundForTaskDefinition)), taskChans)
    case Some(agent) =>
      if agent !in o.connectors then AgentReturned(Err(New(ErrAgentConnectorNotFound)), taskChans)
      else if o.conversion.Some? then AgentReturned(Err(o.conversion.value), taskChans)
      else match o.start
        case Err(e) => AgentReturned(Err(e), taskChans)
        case Ok(taskId) =>
          match o.notification
          case None => AgentWaiting(taskChans + {taskId})
          case Some(n) =>
            var next := NextOf(def.taskConfig.value.nextStepId);
            AgentReturned(Ok(StepExecutionResult(Some(next), Some(n.outputParameters.GetOr(map[])))), taskChans - {taskId})
  }

  /** Conversion and `StartTask` errors are returned unchanged, with nothing
      awaited. */
  lemma AgentDispatchErrors(def: M.StepDefinition, o: AgentOracle, taskChans: set<string>)
    requires def.taskConfig.Some? && o.agentForTask.Some? && o.agentForTask.value in o.connectors
    ensures o.conversion.Some? ==> AgentExecute(def, o, taskChans) == AgentReturned(Err(o.conversion.value), taskChans)
    ensures o.conversion.None? && o.start.Err? ==>
              AgentExecute(def, o, taskChans) == AgentReturned(Err(o.start.error), taskChans)
  {
  }

  /** The reported status is never inspected: a failed task returns the same
      success as a completed one. */
  lemma AgentIgnoresStatus(def: M.StepDefinition, o: AgentOracle, taskChans: set<string>, status: string)
    requires def.taskConfig.Some? && o.notification.Some?
    ensures AgentExecute(def, o.(notification := Some(o.notification.value.(status := status))), taskChans)
         == AgentExecute(def, o, taskChans)
  {
  }

  /** The per-task entry exists exactly while the step waits: a step that
      returns leaves the map as it was, unless the task id was already
      present, whose entry the delete removes. */
  lemma AgentTaskEntryLifetime(def: M.StepDefinition, o: AgentOracle, taskChans: set<string>)
    requires def.taskConfig.Some? && o.start.Ok? && o.start.value !in taskChans
    ensures AgentExecute(def, o, taskChans).AgentReturned? ==> AgentExecute(def, o, taskChans).taskChans == taskChans
    ensures AgentExecute(def, o, taskChans).AgentWaiting? ==> o.start.value in AgentExecute(def, o, taskChans).taskChans
  {
  }
}
