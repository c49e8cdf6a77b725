/** The worker of the root generation (`internal/worker/`): the fork, join
    and wait step executors and the `handle` of the step and workflow
    executors.

    Goroutines and channels are replaced by explicit inputs. A handler call
    becomes a function from the job and an oracle (what each service call,
    queue operation and executor answers) to the sequence of effects the
    call has, in order: successful step-instance and workflow-instance
    updates, successful step-instance inserts, jobs put on the step queue,
    and results sent on a workflow's finished channel. A failed service call
    leaves no effect; its error is only logged unless the code passes it on.
    Channels are identified by a number. */
module RootWorker {
  import opened Wrappers
  import opened GoErrors
  import opened Json
  import RootModels
  import V1StepInput
  import SI = RootStepInstances
  import WS = RootWorkflowService

  /** `StepResult`; `output` is None for a nil map. */
  datatype StepResult = StepResult(output: Option<JsonMap>, nextStepIds: seq<string>)

  /** `WorkflowExecutionResult`: a status and a possibly nil error. */
  datatype WorkflowExecutionResult = WorkflowExecutionResult(status: WS.WorkflowInstanceStatus, error: Option<GoError>)

  /** `StepJob`. `channel` names the workflow's finished channel; the join's
      notification channel is the explicit event sequence of `JoinBarrier`. */
  datatype StepJob = StepJob(
    channel: nat,
    stepDefinition: RootModels.WorkflowStep,
    stepInstance: SI.StepInstance,
    workflowDefinition: RootModels.WorkflowDefinition,
    workflowInstance: WS.WorkflowInstance)

  /** `WorkflowJob`. */
  datatype WorkflowJob = WorkflowJob(workflowInstance: WS.WorkflowInstance)

  /** The workflow-instance update requests the workflow executor issues. */
  datatype InstanceRequest = InstanceRequest(
    status: WS.WorkflowInstanceStatus,
    startedAt: Option<int>,
    completedAt: Option<int>)

  datatype Effect =
    | StepUpdated(stepInstanceId: string, request: SI.UpdateRequest)
    | InstanceUpdated(workflowInstanceId: string, instanceRequest: InstanceRequest)
    | StepCreated(instance: SI.StepInstance)
    | Enqueued(job: StepJob)
    | Sent(channel: nat, result: WorkflowExecutionResult)

  /** Next ids of an optional `*NextStepId`. */
  function NextIds(next: Option<string>): (r: seq<string>)
    ensures next.None? <==> r == []
    ensures next.Some? ==> r == [next.value]
  {
    match next
    case None => []
    case Some(id) => [id]
  }

  // ---------------------------------------------------------------------
  // Fork (`fork_step_executor.go`)

  /** Next ids of the branches, in order, skipping empty ones. */
  function BranchTargets(branches: seq<RootModels.ForkBranch>): (r: seq<string>)
    ensures |r| <= |branches|
    ensures forall i :: 0 <= i < |r| ==> r[i] != ""
  {
    if |branches| == 0 then []
    else (if branches[0].nextStepId == "" then [] else [branches[0].nextStepId]) + BranchTargets(branches[1..])
  }

  /** The fork's `execute`: the join step first, included even if empty,
      then the non-empty branch targets. No output, never an error. */
  function ForkExecute(fork: RootModels.ForkStep): (r: Result<StepResult, GoError>)
    ensures r.Ok? && r.value.output.None?
    ensures r.value.nextStepIds == [fork.joinStepId] + BranchTargets(fork.branches)
  {
    Ok(StepResult(None, [fork.joinStepId] + BranchTargets(fork.branches)))
  }

  /** Branch targets respect concatenation, so their order is the branch order. */
  lemma {:induction false} BranchTargetsAppend(a: seq<RootModels.ForkBranch>, b: seq<RootModels.ForkBranch>)
    ensures BranchTargets(a + b) == BranchTargets(a) + BranchTargets(b)
  {
    if |a| == 0 {
      assert a + b == b;
    } else {
      assert (a + b)[1..] == a[1..] + b;
      BranchTargetsAppend(a[1..], b);
    }
  }

  /** A target is emitted for a branch exactly when its id is non-empty: the
      targets of one branch are either nothing or its id. */
  lemma ForkOneBranch(fork: RootModels.ForkStep, br: RootModels.ForkBranch)
    ensures ForkExecute(fork.(branches := fork.branches + [br])).value.nextStepIds
         == ForkExecute(fork).value.nextStepIds + (if br.nextStepId == "" then [] else [br.nextStepId])
  {
    BranchTargetsAppend(fork.branches, [br]);
    assert [br][1..] == [];
  }

  /** Every id the fork emits is its join id or the target of a branch. */
  lemma {:induction false} BranchTargetsFromBranches(branches: seq<RootModels.ForkBranch>, id: string)
    requires id in BranchTargets(branches)
    ensures exists i :: 0 <= i < |branches| && branches[i].nextStepId == id
  {
    if branches[0].nextStepId == id {
    } else {
      assert id in BranchTargets(branches[1..]);
      BranchTargetsFromBranches(branches[1..], id);
      var i :| 0 <= i < |branches[1..]| && branches[1..][i].nextStepId == id;
      assert branches[i + 1].nextStepId == id;
    }
  }

  // ---------------------------------------------------------------------
  // Join (`join_step_executor.go`)

  /** How many of the notifications name a member of `incoming`, repeats
      counted each time. The `engine` generation's join counts the same way
      in its own code, so `EngineTypeExecutors.Members` is the same count
      for that generation. */
  function MemberCount(incoming: seq<string>, events: seq<string>): (n: nat)
    ensures n <= |events|
  {
    if |events| == 0 then 0
    else MemberCount(incoming, events[..|events| - 1]) + (if events[|events| - 1] in incoming then 1 else 0)
  }

  /** The count never falls as more notifications arrive. */
  lemma {:induction false} MemberCountMonotone(incoming: seq<string>, events: seq<string>, n: nat, m: nat)
    requires n <= m <= |events|
    ensures MemberCount(incoming, events[..n]) <= MemberCount(incoming, events[..m])
    decreases m - n
  {
    if n < m {
      MemberCountMonotone(incoming, events, n, m - 1);
      assert events[..m][..m - 1] == events[..m - 1];
    }
  }

  /** A member notification counts once more even when it repeats. */
  lemma MemberCountRepeat(incoming: seq<string>, events: seq<string>, x: string)
    requires x in incoming
    ensures MemberCount(incoming, events + [x]) == MemberCount(incoming, events) + 1
  {
    assert (events + [x])[..|events|] == events;
  }

  /** The barrier of the join's `execute`: a counter set to the number of
      incoming ids, decremented by each member notification. Returns whether
      it released and how many notifications it consumed; a sequence that
      never brings the counter to zero leaves the join blocked. */
  method JoinBarrier(incoming: seq<string>, events: seq<string>) returns (released: bool, consumed: nat)
    ensures consumed <= |events|
    ensures released <==> |incoming| <= MemberCount(incoming, events)
    ensures released ==> MemberCount(incoming, events[..consumed]) == |incoming|
    ensures released ==> forall n :: 0 <= n < consumed ==> MemberCount(incoming, events[..n]) < |incoming|
    ensures !released ==> consumed == |events|
  {
    var counter: int := |incoming|;
    consumed := 0;
    while counter > 0 && consumed < |events|
      invariant consumed <= |events|
      invariant counter == |incoming| - MemberCount(incoming, events[..consumed]) >= 0
      invariant forall n :: 0 <= n < consumed ==> MemberCount(incoming, events[..n]) < |incoming|
    {
      assert events[..consumed + 1][..consumed] == events[..consumed];
      if events[consumed] in incoming {
        counter := counter - 1;
      }
      consumed := consumed + 1;
    }
    released := counter == 0;
    assert events[..|events|] == events;
    if released {
      MemberCountMonotone(incoming, events, consumed, |events|);
    }
  }

  /** The join's `execute`: None while blocked, else the result and the
      number of notifications consumed. */
  method JoinExecute(join: RootModels.JoinStep, events: seq<string>) returns (r: Option<(Result<StepResult, GoError>, nat)>)
    ensures r.Some? <==> |join.incomingStepIds| <= MemberCount(join.incomingStepIds, events)
    ensures r.Some? ==> r.value.0 == Ok(StepResult(None, NextIds(join.nextStepId))) && r.value.1 <= |events|
    ensures r.Some? ==> MemberCount(join.incomingStepIds, events[..r.value.1]) == |join.incomingStepIds|
  {
    var released, consumed := JoinBarrier(join.incomingStepIds, events);
    if released {
      r := Some((Ok(StepResult(None, NextIds(join.nextStepId))), consumed));
    } else {
      r := None;
    }
  }

  /** A repeated notification releases a two-way join although the second
      incoming step never finished. */
  lemma JoinDuplicateReleases(incoming: seq<string>, events: seq<string>)
    requires incoming == ["a", "b"] && events == ["a", "a"]
    ensures |incoming| <= MemberCount(incoming, events) && "b" !in events
  {
    MemberCountRepeat(incoming, ["a"], "a");
    MemberCountRepeat(incoming, [], "a");
    assert [] + ["a"] == ["a"];
  }

  /** What the join's listener goroutine has done with the notifications it
      received: still listening with the WaitGroup counter at `remaining`,
      or panicked with `ErrNegativeWaitGroup` at notification `at`. */
  datatype ListenerOutcome = Listening(remaining: nat) | NegativeCounter(at: nat)

  const ErrNegativeWaitGroup: string := "sync: negative WaitGroup counter"

  /** The listener goroutine of the join's `execute`. It never leaves its
      loop, so it keeps calling `Done` for member notifications after the
      counter has reached zero and `Wait` has returned; the first such call
      panics. */
  function JoinListener(incoming: seq<string>, events: seq<string>): (r: ListenerOutcome)
    ensures r.Listening? <==> MemberCount(incoming, events) <= |incoming|
    ensures r.Listening? ==> r.remaining == |incoming| - MemberCount(incoming, events)
    ensures r.NegativeCounter? ==>
              && r.at < |events| && events[r.at] in incoming
              && MemberCount(incoming, events[..r.at]) == |incoming|
    decreases |events|
  {
    if |events| == 0 then Listening(|incoming|)
    else
      var pre := events[..|events| - 1];
      var x := events[|events| - 1];
      match JoinListener(incoming, pre)
      case NegativeCounter(at) =>
        assert pre[..at] == events[..at];
        NegativeCounter(at)
      case Listening(rem) =>
        if x !in incoming then Listening(rem)
        else if rem == 0 then NegativeCounter(|events| - 1)
        else Listening(rem - 1)
  }

  /** The listener panics exactly when some member notification arrives
      after the counter has already reached zero, that is, after the join
      released. */
  lemma {:induction false} JoinListenerPanics(incoming: seq<string>, events: seq<string>)
    ensures JoinListener(incoming, events).NegativeCounter? <==>
            exists k :: 0 <= k < |events| && events[k] in incoming && MemberCount(incoming, events[..k]) == |incoming|
  {
    if k :| 0 <= k < |events| && events[k] in incoming && MemberCount(incoming, events[..k]) == |incoming| {
      assert events[..k + 1][..k] == events[..k];
      assert MemberCount(incoming, events[..k + 1]) == |incoming| + 1;
      MemberCountMonotone(incoming, events, k + 1, |events|);
      assert events[..|events|] == events;
    }
  }

  /** Two members, and the first notifies twice before the second: the join
      releases on the repeat, and the second member's notification then
      drives the WaitGroup counter below zero. */
  lemma JoinLateNotificationPanics(incoming: seq<string>, events: seq<string>)
    requires incoming == ["a", "b"] && events == ["a", "a", "b"]
    ensures MemberCount(incoming, events[..2]) == |incoming|
    ensures JoinListener(incoming, events) == NegativeCounter(2)
  {
    assert events[..2] == ["a", "a"];
    JoinDuplicateReleases(incoming, events[..2]);
    assert events[..2][..1] == ["a"] && events[..2][..1][..0] == [];
    assert events[..2] == ["a"] + ["a"];
  }

  // ---------------------------------------------------------------------
  // Wait (`wait_step_executor.go`)

  const ErrInvalidDuration: string := "invalid duration value"

  /** The wait's `execute`: the duration binding is read from the step
      instance's input; `parseDuration` stands for `time.ParseDuration`. The
      sleep itself is not modelled. */
  function WaitExecute(wait: RootModels.WaitStep, instanceInput: Option<JsonMap>,
                       parseDuration: string -> Result<int, GoError>): (r: Result<StepResult, GoError>)
    ensures var v := RootModels.GetValue(wait.duration, instanceInput.GetOr(map[]));
            && (!v.Str? ==> r == Err(New(ErrInvalidDuration)))
            && (v.Str? && parseDuration(v.s).Err? ==> r == Err(parseDuration(v.s).error))
            && (r.Ok? <==> v.Str? && parseDuration(v.s).Ok?)
    ensures r.Ok? ==> r.value == StepResult(None, NextIds(wait.nextStepId))
  {
    match RootModels.GetValue(wait.duration, instanceInput.GetOr(map[]))
    case Str(text) =>
      (match parseDuration(text)
       case Err(e) => Err(e)
       case Ok(_) => Ok(StepResult(None, NextIds(wait.nextStepId))))
    case _ => Err(New(ErrInvalidDuration))
  }

  // ---------------------------------------------------------------------
  // Step executor (`step_executor.go`)

  /** What a type executor's `execute` returned: a possibly nil result and a
      possibly nil error. */
  datatype ExecOutcome = ExecOutcome(result: Option<StepResult>, err: Option<GoError>)

  function FromResult(r: Result<StepResult, GoError>): ExecOutcome {
    match r
    case Ok(v) => ExecOutcome(Some(v), None)
    case Err(e) => ExecOutcome(None, Some(e))
  }

  /** The answers the step executor receives while handling one job:
      the errors of the Running, Completed and Failed updates, the type
      executor's outcome, per successor position the id newId by a
      successful insert or the insert's error and the enqueue's error, and
      the clock readings. */
  datatype StepOracle = StepOracle(
    markRunning: Option<GoError>,
    execution: ExecOutcome,
    markCompleted: Option<GoError>,
    failUpdate: Option<GoError>,
    create: nat -> Result<string, GoError>,
    enqueue: nat -> Option<GoError>,
    startedAt: int,
    completedAt: int,
    createdAt: int)

  function RunningRequest(at: int): SI.UpdateRequest {
    SI.EmptyRequest.(status := Some(SI.Running), startedAt := Some(at))
  }

  function CompletedRequest(output: Option<JsonMap>, at: int): SI.UpdateRequest {
    SI.EmptyRequest.(status := Some(SI.Completed), output := Some(output), completedAt := Some(at))
  }

  const FailedRequest: SI.UpdateRequest := SI.EmptyRequest.(status := Some(SI.Failed))

  function Failure(err: Option<GoError>): WorkflowExecutionResult {
    WorkflowExecutionResult(WS.WfFailed, err)
  }

  const ErrStepExecutionFailed: string := "step execution failed"
  const ErrCreateStepInstance: string := "failed to create step instance"
  const ErrEnqueueNextStep: string := "failed to enqueue next step"

  /** `failWithError`: set the step Failed (kept only if the update
      succeeds) and send Failed with the error joined to "step execution
      failed". */
  function StepFail(job: StepJob, err: Option<GoError>, o: StepOracle): (effects: seq<Effect>)
    ensures |effects| >= 1
    ensures effects[|effects| - 1] == Sent(job.channel, Failure(Some(JoinWith(err, ErrStepExecutionFailed))))
  {
    (if o.failUpdate.None? then [StepUpdated(job.stepInstance.id, FailedRequest)] else [])
    + [Sent(job.channel, Failure(Some(JoinWith(err, ErrStepExecutionFailed))))]
  }

  /** The Pending step instance created for `step`, its input resolved from
      the workflow input with no step outputs. */
  function PendingInstance(wi: WS.WorkflowInstance, step: RootModels.WorkflowStep, now: int): (si: SI.StepInstance)
    ensures si.status == SI.Pending && si.stepId == step.id && si.workflowInstanceId == wi.id
    ensures si.input == Some(V1StepInput.GetValueMap(step.input, map[], wi.input))
    ensures si.createdAt == si.updatedAt
  {
    SI.StepInstance("", wi.id, step.id, SI.Pending, now, now, None, None,
                    Some(V1StepInput.GetValueMap(step.input, map[], wi.input)), None, None)
  }

  /** The job enqueued for a successor `step` whose instance got `newId`. */
  function NextJob(job: StepJob, step: RootModels.WorkflowStep, newId: string, createdAt: int): (next: StepJob)
    ensures next.stepInstance.id == newId && next.stepInstance.stepId == step.id
  {
    StepJob(job.channel, step, PendingInstance(job.workflowInstance, step, createdAt).(id := newId),
            job.workflowDefinition, job.workflowInstance)
  }

  /** The successor loop of `handle`, from position `k` of `ids`. */
  function Successors(job: StepJob, ids: seq<string>, o: StepOracle, k: nat): (effects: seq<Effect>)
    requires job.workflowDefinition.steps.Some?
    ensures k >= |ids| ==> effects == []
    ensures k < |ids| ==> 1 <= |effects| <= 2 * (|ids| - k)
    decreases |ids| - k
  {
    if k >= |ids| then []
    else match RootModels.GetStepById(job.workflowDefinition, ids[k])
      case None => [Sent(job.channel, Failure(None))]
      case Some(step) =>
        match o.create(k)
        case Err(e) => [Sent(job.channel, Failure(Some(JoinWith(Some(e), ErrCreateStepInstance))))]
        case Ok(newId) =>
          var next := NextJob(job, step, newId, o.createdAt);
          match o.enqueue(k)
          case Some(e) =>
            [StepCreated(next.stepInstance), Sent(job.channel, Failure(Some(JoinWith(Some(e), ErrEnqueueNextStep))))]
          case None => [StepCreated(next.stepInstance), Enqueued(next)] + Successors(job, ids, o, k + 1)
  }

  /** Position `k` of the successor loop finds its step, inserts its
      instance and enqueues its job. */
  predicate Succeeds(job: StepJob, ids: seq<string>, o: StepOracle, k: nat)
    requires job.workflowDefinition.steps.Some?
  {
    && k < |ids|
    && RootModels.GetStepById(job.workflowDefinition, ids[k]).Some?
    && o.create(k).Ok? && o.enqueue(k).None?
  }

  /** One position of the loop: past the end nothing happens; a success
      inserts and enqueues and goes on; a failure ends with one result. */
  lemma SuccessorsUnfold(job: StepJob, ids: seq<string>, o: StepOracle, k: nat)
    requires job.workflowDefinition.steps.Some?
    ensures var effects := Successors(job, ids, o, k);
            && (k >= |ids| ==> effects == [])
            && (Succeeds(job, ids, o, k) ==>
                  var next := NextJob(job, RootModels.GetStepById(job.workflowDefinition, ids[k]).value,
                                      o.create(k).value, o.createdAt);
                  effects == [StepCreated(next.stepInstance), Enqueued(next)] + Successors(job, ids, o, k + 1))
            && (k < |ids| && !Succeeds(job, ids, o, k) ==>
                  && 1 <= |effects| <= 2
                  && effects[|effects| - 1].Sent? && effects[|effects| - 1].channel == job.channel
                  && (|effects| == 2 ==> effects[0].StepCreated?))
            && (k < |ids| && RootModels.GetStepById(job.workflowDefinition, ids[k]).None? ==>
                  effects == [Sent(job.channel, Failure(None))])
  {
  }

  /** The handler got as far as the successor loop. */
  predicate ReachesSuccessors(job: StepJob, registered: set<string>, o: StepOracle) {
    && job.stepDefinition.stepType in registered
    && o.markRunning.None? && o.execution.err.None? && o.execution.result.Some?
    && o.markCompleted.None?
  }

  /** Every successor from `k` on exists and is created and enqueued. */
  predicate AllSuccessorsSucceed(job: StepJob, ids: seq<string>, o: StepOracle, k: nat)
    requires job.workflowDefinition.steps.Some?
  {
    forall j :: k <= j < |ids| ==> Succeeds(job, ids, o, j)
  }

  predicate SendsOnlyLast(effects: seq<Effect>, channel: nat) {
    forall i :: 0 <= i < |effects| && effects[i].Sent? ==> i == |effects| - 1 && effects[i].channel == channel
  }

  predicate NoUpdates(effects: seq<Effect>) {
    forall i :: 0 <= i < |effects| ==> !effects[i].StepUpdated? && !effects[i].InstanceUpdated?
  }

  predicate Silent(effects: seq<Effect>) {
    forall i :: 0 <= i < |effects| ==> !effects[i].Sent?
  }

  /** Every job the successor loop enqueues continues the same workflow on
      the same channel, with a Pending instance of a step it was asked for,
      whose input comes from the workflow input alone. */
  predicate IsSuccessorJob(job: StepJob, ids: seq<string>, next: StepJob, createdAt: int) {
    && next.channel == job.channel
    && next.workflowDefinition == job.workflowDefinition
    && next.workflowInstance == job.workflowInstance
    && next.stepDefinition.id in ids
    && next.stepInstance == PendingInstance(job.workflowInstance, next.stepDefinition, createdAt).(id := next.stepInstance.id)
  }

  /** Every enqueued job is a successor job of `job` for `ids`. */
  predicate JobsAreSuccessors(effects: seq<Effect>, job: StepJob, ids: seq<string>, createdAt: int) {
    forall i :: 0 <= i < |effects| && effects[i].Enqueued? ==> IsSuccessorJob(job, ids, effects[i].job, createdAt)
  }

  /** How the effect predicates combine over a concatenation with a silent,
      update-free prefix. */
  lemma AppendAfterSilent(p: seq<Effect>, rest: seq<Effect>, channel: nat)
    requires Silent(p)
    ensures Silent(p + rest) <==> Silent(rest)
    ensures SendsOnlyLast(rest, channel) ==> SendsOnlyLast(p + rest, channel)
    ensures NoUpdates(p) && NoUpdates(rest) ==> NoUpdates(p + rest)
  {
    var e := p + rest;
    assert forall i :: |p| <= i < |e| ==> e[i] == rest[i - |p|];
    assert forall i :: 0 <= i < |rest| ==> rest[i] == e[i + |p|];
  }

  lemma AppendJobs(p: seq<Effect>, rest: seq<Effect>, job: StepJob, ids: seq<string>, createdAt: int)
    requires JobsAreSuccessors(p, job, ids, createdAt) && JobsAreSuccessors(rest, job, ids, createdAt)
    ensures JobsAreSuccessors(p + rest, job, ids, createdAt)
  {
    var e := p + rest;
    assert forall i :: |p| <= i < |e| ==> e[i] == rest[i - |p|];
  }

  /** Effects past an update-free suffix's start are not step updates. */
  lemma UpdatesOnlyInPrefix(p: seq<Effect>, rest: seq<Effect>, i: nat)
    requires NoUpdates(rest) && i < |p + rest| && (p + rest)[i].StepUpdated?
    ensures i < |p| && (p + rest)[i] == p[i]
  {
    assert forall j :: |p| <= j < |p + rest| ==> (p + rest)[j] == rest[j - |p|];
  }

  /** The loop sends at most one result, last and on the job's channel,
      and sends nothing exactly when every remaining successor succeeds. */
  lemma {:induction false} SuccessorsSend(job: StepJob, ids: seq<string>, o: StepOracle, k: nat)
    requires job.workflowDefinition.steps.Some?
    ensures var effects := Successors(job, ids, o, k);
            && SendsOnlyLast(effects, job.channel)
            && (Silent(effects) <==> AllSuccessorsSucceed(job, ids, o, k))
    decreases |ids| - k
  {
    SuccessorsUnfold(job, ids, o, k);
    var effects := Successors(job, ids, o, k);
    if Succeeds(job, ids, o, k) {
      SuccessorsSend(job, ids, o, k + 1);
      var rest := Successors(job, ids, o, k + 1);
      AppendAfterSilent([effects[0], effects[1]], rest, job.channel);
      if AllSuccessorsSucceed(job, ids, o, k + 1) {
        assert AllSuccessorsSucceed(job, ids, o, k);
      }
    } else if k < |ids| {
      assert !AllSuccessorsSucceed(job, ids, o, k);
    }
  }

  /** The loop never updates an instance. */
  lemma {:induction false} SuccessorsNoUpdates(job: StepJob, ids: seq<string>, o: StepOracle, k: nat)
    requires job.workflowDefinition.steps.Some?
    ensures NoUpdates(Successors(job, ids, o, k))
    decreases |ids| - k
  {
    SuccessorsUnfold(job, ids, o, k);
    var effects := Successors(job, ids, o, k);
    if Succeeds(job, ids, o, k) {
      SuccessorsNoUpdates(job, ids, o, k + 1);
      var rest := Successors(job, ids, o, k + 1);
      assert effects[2..] == rest;
      NoUpdatesConcat(effects[..2], rest);
      assert effects == effects[..2] + rest;
    }
  }

  lemma NoUpdatesConcat(p: seq<Effect>, rest: seq<Effect>)
    requires NoUpdates(p) && NoUpdates(rest)
    ensures NoUpdates(p + rest)
  {
  }

  /** Every job the loop enqueues is a successor job. */
  lemma {:induction false} SuccessorsJobs(job: StepJob, ids: seq<string>, o: StepOracle, k: nat)
    requires job.workflowDefinition.steps.Some?
    ensures JobsAreSuccessors(Successors(job, ids, o, k), job, ids, o.createdAt)
    decreases |ids| - k
  {
    SuccessorsUnfold(job, ids, o, k);
    var effects := Successors(job, ids, o, k);
    if Succeeds(job, ids, o, k) {
      SuccessorsJobs(job, ids, o, k + 1);
      var rest := Successors(job, ids, o, k + 1);
      var step := RootModels.GetStepById(job.workflowDefinition, ids[k]).value;
      assert step.id in ids;
      AppendJobs([effects[0], effects[1]], rest, job, ids, o.createdAt);
    }
  }

  /** The step executor's `handle`. `registered` is the set of step types
      with a registered executor. The job's definition must have steps,
      since looking up a successor dereferences them. */
  function StepHandle(job: StepJob, registered: set<string>, o: StepOracle): (effects: seq<Effect>)
    requires job.workflowDefinition.steps.Some?
    ensures |effects| >= 1
    ensures effects == [Sent(job.channel, Failure(None))] <==> job.stepDefinition.stepType !in registered
  {
    var id := job.stepInstance.id;
    if job.stepDefinition.stepType !in registered then [Sent(job.channel, Failure(None))]
    else if o.markRunning.Some? then StepFail(job, o.markRunning, o)
    else
      var running := [StepUpdated(id, RunningRequest(o.startedAt))];
      if o.execution.err.Some? || o.execution.result.None? then running + StepFail(job, o.execution.err, o)
      else
        var result := o.execution.result.value;
        if o.markCompleted.Some? then running + StepFail(job, o.markCompleted, o)
        else
          var done := running + [StepUpdated(id, CompletedRequest(result.output, o.completedAt))];
          if |result.nextStepIds| == 0 then done + [Sent(job.channel, WorkflowExecutionResult(WS.WfCompleted, None))]
          else done + Successors(job, result.nextStepIds, o, 0)
  }

  /** An unregistered step type: one Failed result with a nil error, and
      the step instance is never updated. */
  lemma HandleUnknownType(job: StepJob, registered: set<string>, o: StepOracle)
    requires job.workflowDefinition.steps.Some? && job.stepDefinition.stepType !in registered
    ensures StepHandle(job, registered, o) == [Sent(job.channel, Failure(None))]
  {
  }

  /** A failure to mark Running, an executor error or nil result, or a
      failure to mark Completed: the step is set Failed (when that update
      succeeds), one Failed result carrying the cause is sent last, and no
      successor is created. */
  lemma HandleFailure(job: StepJob, registered: set<string>, o: StepOracle)
    requires job.workflowDefinition.steps.Some? && job.stepDefinition.stepType in registered
    requires !ReachesSuccessors(job, registered, o)
    ensures var effects := StepHandle(job, registered, o);
            var cause := if o.markRunning.Some? then o.markRunning
                         else if o.execution.err.Some? || o.execution.result.None? then o.execution.err
                         else o.markCompleted;
            && effects[|effects| - 1] == Sent(job.channel, Failure(Some(JoinWith(cause, ErrStepExecutionFailed))))
            && SendsOnlyLast(effects, job.channel)
            && (StepUpdated(job.stepInstance.id, FailedRequest) in effects <==> o.failUpdate.None?)
            && (forall i :: 0 <= i < |effects| ==> !effects[i].StepCreated? && !effects[i].Enqueued?)
  {
    var running := [StepUpdated(job.stepInstance.id, RunningRequest(o.startedAt))];
    if o.markRunning.Some? {
      FailAfter(job, [], o.markRunning, o);
      assert StepHandle(job, registered, o) == [] + StepFail(job, o.markRunning, o);
    } else if o.execution.err.Some? || o.execution.result.None? {
      FailAfter(job, running, o.execution.err, o);
    } else {
      FailAfter(job, running, o.markCompleted, o);
    }
  }

  /** The failure path after the updates `p` already issued (none, or
      Running): one Failed result last, the Failed update exactly when it
      succeeds, and nothing created or enqueued. */
  lemma FailAfter(job: StepJob, p: seq<Effect>, err: Option<GoError>, o: StepOracle)
    requires p == [] || p == [StepUpdated(job.stepInstance.id, RunningRequest(o.startedAt))]
    ensures var effects := p + StepFail(job, err, o);
            && effects[|effects| - 1] == Sent(job.channel, Failure(Some(JoinWith(err, ErrStepExecutionFailed))))
            && SendsOnlyLast(effects, job.channel)
            && (StepUpdated(job.stepInstance.id, FailedRequest) in effects <==> o.failUpdate.None?)
            && (forall i :: 0 <= i < |effects| ==> !effects[i].StepCreated? && !effects[i].Enqueued?)
  {
    assert FailedRequest != RunningRequest(o.startedAt);
  }

  /** Running, with its start time, is the first update; Completed, with the
      output and completion time, can only be the second. */
  lemma HandleRunningBeforeCompleted(job: StepJob, registered: set<string>, o: StepOracle, i: nat)
    requires job.workflowDefinition.steps.Some?
    requires var effects := StepHandle(job, registered, o);
             i < |effects| && effects[i].StepUpdated? && effects[i].request.status == Some(SI.Completed)
    ensures var effects := StepHandle(job, registered, o);
            && i == 1 && effects[0] == StepUpdated(job.stepInstance.id, RunningRequest(o.startedAt))
            && effects[1] == StepUpdated(job.stepInstance.id,
                                         CompletedRequest(o.execution.result.value.output, o.completedAt))
  {
    var effects := StepHandle(job, registered, o);
    if ReachesSuccessors(job, registered, o) && |o.execution.result.value.nextStepIds| > 0 {
      var ids := o.execution.result.value.nextStepIds;
      HandleReachesLoop(job, registered, o);
      SuccessorsNoUpdates(job, ids, o, 0);
      UpdatesOnlyInPrefix(effects[..2], Successors(job, ids, o, 0), i);
    }
  }

  /** No next ids: Running, Completed, one Completed result, nothing created. */
  lemma HandleLastStep(job: StepJob, registered: set<string>, o: StepOracle)
    requires job.workflowDefinition.steps.Some? && ReachesSuccessors(job, registered, o)
    requires o.execution.result.value.nextStepIds == []
    ensures StepHandle(job, registered, o) ==
      [StepUpdated(job.stepInstance.id, RunningRequest(o.startedAt)),
       StepUpdated(job.stepInstance.id, CompletedRequest(o.execution.result.value.output, o.completedAt)),
       Sent(job.channel, WorkflowExecutionResult(WS.WfCompleted, None))]
  {
  }

  /** A registered wait step run by the step handler, with both status
      updates succeeding: a duration that is not a string fails the step
      with the invalid-duration error joined to "step execution failed",
      and a parsable duration on a wait without a next step completes the
      workflow. */
  lemma WaitInHandler(job: StepJob, registered: set<string>, o: StepOracle, parseDuration: string -> Result<int, GoError>)
    requires job.workflowDefinition.steps.Some? && job.stepDefinition.stepType in registered
    requires job.stepDefinition.wait.Some? && o.markRunning.None? && o.markCompleted.None?
    requires o.execution == FromResult(WaitExecute(job.stepDefinition.wait.value, job.stepInstance.input, parseDuration))
    ensures var wait := job.stepDefinition.wait.value;
            var effects := StepHandle(job, registered, o);
            var v := RootModels.GetValue(wait.duration, job.stepInstance.input.GetOr(map[]));
            && (!v.Str? ==>
                  effects[|effects| - 1] == Sent(job.channel, Failure(Some(JoinWith(Some(New(ErrInvalidDuration)), ErrStepExecutionFailed)))))
            && (v.Str? && parseDuration(v.s).Ok? && wait.nextStepId.None? ==>
                  effects == [StepUpdated(job.stepInstance.id, RunningRequest(o.startedAt)),
                              StepUpdated(job.stepInstance.id, CompletedRequest(None, o.completedAt)),
                              Sent(job.channel, WorkflowExecutionResult(WS.WfCompleted, None))])
  {
    var wait := job.stepDefinition.wait.value;
    var v := RootModels.GetValue(wait.duration, job.stepInstance.input.GetOr(map[]));
    if !v.Str? {
      HandleFailure(job, registered, o);
    } else if parseDuration(v.s).Ok? && wait.nextStepId.None? {
      HandleLastStep(job, registered, o);
    }
  }

  /** A handler that reaches a non-empty successor loop records Running and
      Completed and then runs the loop. */
  lemma HandleReachesLoop(job: StepJob, registered: set<string>, o: StepOracle)
    requires job.workflowDefinition.steps.Some? && ReachesSuccessors(job, registered, o)
    requires |o.execution.result.value.nextStepIds| > 0
    ensures StepHandle(job, registered, o)
         == [StepUpdated(job.stepInstance.id, RunningRequest(o.startedAt)),
             StepUpdated(job.stepInstance.id, CompletedRequest(o.execution.result.value.output, o.completedAt))]
            + Successors(job, o.execution.result.value.nextStepIds, o, 0)
  {
  }

  /** Any other handler run ends with exactly one result and enqueues nothing. */
  lemma HandleStopsEarly(job: StepJob, registered: set<string>, o: StepOracle)
    requires job.workflowDefinition.steps.Some?
    requires !ReachesSuccessors(job, registered, o) || |o.execution.result.value.nextStepIds| == 0
    ensures var effects := StepHandle(job, registered, o);
            && |effects| >= 1 && effects[|effects| - 1].Sent?
            && SendsOnlyLast(effects, job.channel)
            && forall i :: 0 <= i < |effects| ==> !effects[i].Enqueued?
  {
    if job.stepDefinition.stepType !in registered {
      HandleUnknownType(job, registered, o);
    } else if !ReachesSuccessors(job, registered, o) {
      HandleFailure(job, registered, o);
    } else {
      HandleLastStep(job, registered, o);
    }
  }

  /** At most one result is sent, always last and on the job's channel, and
      nothing is sent exactly when every successor is found, created and
      enqueued. */
  lemma HandleSendsAtMostOnce(job: StepJob, registered: set<string>, o: StepOracle)
    requires job.workflowDefinition.steps.Some?
    ensures var effects := StepHandle(job, registered, o);
            && SendsOnlyLast(effects, job.channel)
            && (Silent(effects) <==>
                  ReachesSuccessors(job, registered, o) && |o.execution.result.value.nextStepIds| > 0
                  && AllSuccessorsSucceed(job, o.execution.result.value.nextStepIds, o, 0))
  {
    var effects := StepHandle(job, registered, o);
    if ReachesSuccessors(job, registered, o) && |o.execution.result.value.nextStepIds| > 0 {
      var ids := o.execution.result.value.nextStepIds;
      HandleReachesLoop(job, registered, o);
      SuccessorsSend(job, ids, o, 0);
      AppendAfterSilent(effects[..2], Successors(job, ids, o, 0), job.channel);
    } else {
      HandleStopsEarly(job, registered, o);
    }
  }

  /** Only a run that reaches the successor loop enqueues, and every job it
      enqueues is a Pending successor on the same channel, of a step among
      the executor's next ids. */
  lemma HandleEnqueuesSuccessors(job: StepJob, registered: set<string>, o: StepOracle)
    requires job.workflowDefinition.steps.Some?
    ensures var effects := StepHandle(job, registered, o);
            && (!ReachesSuccessors(job, registered, o) ==> forall i :: 0 <= i < |effects| ==> !effects[i].Enqueued?)
            && (ReachesSuccessors(job, registered, o) ==>
                  JobsAreSuccessors(effects, job, o.execution.result.value.nextStepIds, o.createdAt))
  {
    var effects := StepHandle(job, registered, o);
    if ReachesSuccessors(job, registered, o) && |o.execution.result.value.nextStepIds| > 0 {
      var ids := o.execution.result.value.nextStepIds;
      HandleReachesLoop(job, registered, o);
      SuccessorsJobs(job, ids, o, 0);
      AppendJobs(effects[..2], Successors(job, ids, o, 0), job, ids, o.createdAt);
    } else {
      HandleStopsEarly(job, registered, o);
    }
  }

  /** The step ids of the jobs enqueued, in order. */
  function EnqueuedSteps(effects: seq<Effect>): (r: seq<string>)
    ensures |r| <= |effects|
  {
    if |effects| == 0 then []
    else (if effects[0].Enqueued? then [effects[0].job.stepDefinition.id] else []) + EnqueuedSteps(effects[1..])
  }

  lemma EnqueuedStepsPair(c: Effect, next: StepJob, rest: seq<Effect>)
    requires c.StepCreated?
    ensures EnqueuedSteps([c, Enqueued(next)] + rest) == [next.stepDefinition.id] + EnqueuedSteps(rest)
  {
    var e := [c, Enqueued(next)] + rest;
    assert e[1..] == [Enqueued(next)] + rest;
    assert e[1..][1..] == rest;
  }

  /** Every position from `start` up to `k` succeeds. */
  predicate SucceedBetween(job: StepJob, ids: seq<string>, o: StepOracle, start: nat, k: nat)
    requires job.workflowDefinition.steps.Some?
    decreases k - start
  {
    start >= k || (Succeeds(job, ids, o, start) && SucceedBetween(job, ids, o, start + 1, k))
  }

  /** An unknown successor id at position `k`, after successful successors
      from `start`: those stay created and enqueued, in order, then one
      Failed result with a nil error ends the loop and later ids are skipped. */
  lemma {:induction false} UnknownSuccessorStops(job: StepJob, ids: seq<string>, o: StepOracle, k: nat, start: nat)
    requires job.workflowDefinition.steps.Some?
    requires start <= k < |ids| && RootModels.GetStepById(job.workflowDefinition, ids[k]).None?
    requires SucceedBetween(job, ids, o, start, k)
    ensures var effects := Successors(job, ids, o, start);
            && |effects| == 2 * (k - start) + 1
            && effects[2 * (k - start)] == Sent(job.channel, Failure(None))
            && EnqueuedSteps(effects) == ids[start..k]
    decreases k - start
  {
    var effects := Successors(job, ids, o, start);
    if start < k {
      UnknownSuccessorStops(job, ids, o, k, start + 1);
      var rest := Successors(job, ids, o, start + 1);
      var next := SuccessStep(job, ids, o, start);
      PairShape(StepCreated(next.stepInstance), next, rest, k - start - 1, Sent(job.channel, Failure(None)), ids[start + 1..k]);
      SliceCons(ids, start, k);
    } else {
      assert effects == [Sent(job.channel, Failure(None))];
    }
  }

  lemma SliceCons(ids: seq<string>, start: nat, k: nat)
    requires start < k <= |ids|
    ensures ids[start..k] == [ids[start]] + ids[start + 1..k]
  {
  }

  /** Prepending an insert and an enqueue to a run of the loop: two more
      effects, the same last one, and the job's step first among the
      enqueued ones. */
  lemma PairShape(c: Effect, next: StepJob, rest: seq<Effect>, n: nat, last: Effect, steps: seq<string>)
    requires c.StepCreated?
    requires |rest| == 2 * n + 1 && rest[2 * n] == last && EnqueuedSteps(rest) == steps
    ensures var e := [c, Enqueued(next)] + rest;
            |e| == 2 * (n + 1) + 1 && e[2 * (n + 1)] == last && EnqueuedSteps(e) == [next.stepDefinition.id] + steps
  {
    EnqueuedStepsPair(c, next, rest);
  }

  /** A position that succeeds inserts and enqueues its job, for the id at
      that position, and the loop goes on. */
  lemma SuccessStep(job: StepJob, ids: seq<string>, o: StepOracle, k: nat) returns (next: StepJob)
    requires job.workflowDefinition.steps.Some? && Succeeds(job, ids, o, k)
    ensures Successors(job, ids, o, k) == [StepCreated(next.stepInstance), Enqueued(next)] + Successors(job, ids, o, k + 1)
    ensures next.stepDefinition.id == ids[k]
  {
    next := NextJob(job, RootModels.GetStepById(job.workflowDefinition, ids[k]).value, o.create(k).value, o.createdAt);
  }

  /** With the fork's executor registered for the step type, the handler
      creates the join step first and then each non-empty branch target. */
  lemma HandleFork(job: StepJob, registered: set<string>, o: StepOracle)
    requires job.workflowDefinition.steps.Some? && job.stepDefinition.fork.Some?
    requires o.execution == FromResult(ForkExecute(job.stepDefinition.fork.value))
    requires job.stepDefinition.stepType in registered && o.markRunning.None? && o.markCompleted.None?
    ensures ReachesSuccessors(job, registered, o)
    ensures StepHandle(job, registered, o)[2..]
         == Successors(job, [job.stepDefinition.fork.value.joinStepId] + BranchTargets(job.stepDefinition.fork.value.branches), o, 0)
  {
  }

  // ---------------------------------------------------------------------
  // Workflow executor (`workflow_executor.go`)

  /** The answers the workflow executor receives while handling one job:
      the definition lookup, the errors of the Running, Failed and final
      updates, the first step (how the root model finds it is not part of
      this model), the first step's insert and enqueue, the new finished
      channel, the one result received on it, and the clock readings. */
  datatype WorkflowOracle = WorkflowOracle(
    definition: Result<RootModels.WorkflowDefinition, GoError>,
    markRunning: Option<GoError>,
    failUpdate: Option<GoError>,
    finalUpdate: Option<GoError>,
    firstStep: Option<RootModels.WorkflowStep>,
    create: Result<string, GoError>,
    enqueue: Option<GoError>,
    channel: nat,
    received: WorkflowExecutionResult,
    startedAt: int,
    createdAt: int,
    completedAt: int)

  /** `failWithError`: mark the instance Failed with a completion time, kept
      only if the update succeeds. */
  function WorkflowFail(id: string, o: WorkflowOracle): (effects: seq<Effect>)
    ensures |effects| <= 1
    ensures |effects| == 1 <==> o.failUpdate.None?
    ensures forall e :: e in effects ==> e == InstanceUpdated(id, InstanceRequest(WS.WfFailed, None, Some(o.completedAt)))
  {
    if o.failUpdate.None? then [InstanceUpdated(id, InstanceRequest(WS.WfFailed, None, Some(o.completedAt)))] else []
  }

  /** The workflow executor's `handle`. */
  function WorkflowHandle(job: WorkflowJob, o: WorkflowOracle): (effects: seq<Effect>)
    ensures |effects| <= 4
    ensures forall i :: 0 <= i < |effects| ==> !effects[i].Sent? && !effects[i].StepUpdated?
  {
    var wi := job.workflowInstance;
    match o.definition
    case Err(_) => WorkflowFail(wi.id, o)
    case Ok(def) =>
      if o.markRunning.Some? then WorkflowFail(wi.id, o)
      else
        var running := [InstanceUpdated(wi.id, InstanceRequest(WS.WfRunning, Some(o.startedAt), None))];
        match o.firstStep
        case None => running + WorkflowFail(wi.id, o)
        case Some(first) =>
          match o.create
          case Err(_) => running + WorkflowFail(wi.id, o)
          case Ok(newId) =>
            var created := PendingInstance(wi, first, o.createdAt).(id := newId);
            if o.enqueue.Some? then running + [StepCreated(created)] + WorkflowFail(wi.id, o)
            else
              running + [StepCreated(created), Enqueued(StepJob(o.channel, first, created, def, wi))]
              + (if o.finalUpdate.None?
                 then [InstanceUpdated(wi.id, InstanceRequest(o.received.status, None, Some(o.completedAt)))]
                 else [])
  }

  /** A workflow started by `StartWorkflow` and handed to the workflow
      executor: the instance marked Running is the one under the id the
      start returned, and its first step instance is created Pending for
      that instance, with its input resolved from the input given at start. */
  lemma StartThenHandle(defs: map<string, RootModels.WorkflowDefinition>, definitionId: string,
                        so: WS.StartOracle, o: WorkflowOracle)
    requires WS.StartWorkflow(defs, definitionId, so).1.None?
    requires o.definition.Ok? && o.markRunning.None? && o.firstStep.Some? && o.create.Ok?
    ensures var started := WS.StartWorkflow(defs, definitionId, so);
            var effects := WorkflowHandle(WorkflowJob(started.2.value), o);
            && |effects| >= 2
            && effects[0] == InstanceUpdated(started.0, InstanceRequest(WS.WfRunning, Some(o.startedAt), None))
            && effects[1].StepCreated?
            && effects[1].instance.workflowInstanceId == started.0
            && effects[1].instance.status == SI.Pending
            && effects[1].instance.input == Some(V1StepInput.GetValueMap(o.firstStep.value.input, map[], so.inputJson))
  {
  }

  /** A definition that cannot be loaded: the instance goes to Failed with a
      completion time and is never marked Running. */
  lemma WorkflowDefinitionFailure(job: WorkflowJob, o: WorkflowOracle)
    requires o.definition.Err?
    ensures WorkflowHandle(job, o) == WorkflowFail(job.workflowInstance.id, o)
    ensures forall e :: e in WorkflowHandle(job, o) ==> !e.StepCreated? && e.instanceRequest.status == WS.WfFailed
  {
  }

  /** The first effect of any run that gets past loading is the Running
      update with its start time; a step instance is created only after it,
      Pending, for the first step, with its input resolved from the workflow
      input. */
  lemma WorkflowRunningFirst(job: WorkflowJob, o: WorkflowOracle, i: nat)
    requires var effects := WorkflowHandle(job, o); i < |effects| && effects[i].StepCreated?
    ensures var effects := WorkflowHandle(job, o);
            && i == 1 && o.firstStep.Some?
            && effects[0] == InstanceUpdated(job.workflowInstance.id, InstanceRequest(WS.WfRunning, Some(o.startedAt), None))
            && effects[1].instance.status == SI.Pending
            && effects[1].instance.stepId == o.firstStep.value.id
            && effects[1].instance.input
               == Some(V1StepInput.GetValueMap(o.firstStep.value.input, map[], job.workflowInstance.input))
  {
  }

  /** A run that fails after being marked Running (no first step, insert or
      enqueue failure) ends with the Failed update when that succeeds, and
      enqueues nothing. */
  lemma WorkflowLateFailure(job: WorkflowJob, o: WorkflowOracle)
    requires o.definition.Ok? && o.markRunning.None?
    requires o.firstStep.None? || o.create.Err? || o.enqueue.Some?
    ensures var effects := WorkflowHandle(job, o);
            && (forall e :: e in effects ==> !e.Enqueued?)
            && (o.failUpdate.None? <==>
                  effects[|effects| - 1] == InstanceUpdated(job.workflowInstance.id,
                                                            InstanceRequest(WS.WfFailed, None, Some(o.completedAt))))
  {
  }

  /** A run whose first step is enqueued waits for exactly one result and
      records that result's status with the completion time, on the channel
      the enqueued job carries. If that final update fails, the error is
      only logged: the run ends after the enqueue and no completion is
      recorded at all. */
  lemma WorkflowFinalStatus(job: WorkflowJob, o: WorkflowOracle)
    requires o.definition.Ok? && o.markRunning.None? && o.firstStep.Some? && o.create.Ok? && o.enqueue.None?
    ensures var effects := WorkflowHandle(job, o);
            && |effects| == (if o.finalUpdate.None? then 4 else 3)
            && effects[2].Enqueued? && effects[2].job.channel == o.channel
            && (o.finalUpdate.None? ==>
                  effects[3] == InstanceUpdated(job.workflowInstance.id,
                                                InstanceRequest(o.received.status, None, Some(o.completedAt))))
            && (o.finalUpdate.Some? ==>
                  forall i :: 0 <= i < |effects| && effects[i].InstanceUpdated? ==> effects[i].instanceRequest.completedAt.None?)
  {
  }
}
