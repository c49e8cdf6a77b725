/** The step and instance model of the `engine` generation
    (`engine/internal/models`). Timestamps and the floating-point progress
    are not modelled. */
module EngineModels {
  import opened Wrappers
  import opened Json
  import UJ = UnknownJson

  const TaskType: string := "task"
  const WorkflowType: string := "workflow"
  const WaitType: string := "wait"
  const DecisionType: string := "decision"
  const ForkType: string := "fork"
  const JoinType: string := "join"

  const StepTypes: seq<string> := [TaskType, WorkflowType, WaitType, DecisionType, ForkType, JoinType]

  datatype StepDefinitionParameter = StepDefinitionParameter(paramType: string, value: Value)

  datatype TaskConfig = TaskConfig(taskDefinitionId: string, nextStepId: Option<string>)
  datatype WorkflowConfig = WorkflowConfig(workflowDefinitionId: string, nextStepId: Option<string>)
  datatype WaitConfig = WaitConfig(durationSeconds: StepDefinitionParameter, nextStepId: Option<string>)
  /** A join lists its incoming steps and an optional successor. */
  datatype JoinConfig = JoinConfig(incomingStepIds: seq<string>, nextStepId: Option<string>)
  datatype ForkBranch = ForkBranch(name: Option<string>, description: Option<string>, nextStepId: string)
  /** A fork holds only its branches: unlike the root generation there is no join id. */
  datatype ForkConfig = ForkConfig(branches: seq<ForkBranch>)
  datatype DecisionCase = DecisionCase(name: Option<string>, description: Option<string>, condition: string, nextStepId: string)
  datatype DecisionConfig = DecisionConfig(cases: seq<DecisionCase>)

  /** `WorkflowStepDefinition`. */
  datatype StepDefinition = StepDefinition(
    stepDefinitionId: string,
    name: string,
    description: string,
    parameters: map<string, StepDefinitionParameter>,
    metadata: JsonMap,
    stepType: string,
    taskConfig: Option<TaskConfig>,
    workflowConfig: Option<WorkflowConfig>,
    waitConfig: Option<WaitConfig>,
    decisionConfig: Option<DecisionConfig>,
    forkConfig: Option<ForkConfig>,
    joinConfig: Option<JoinConfig>)

  datatype StepStatus = StepPending | StepRunning | StepCompleted | StepFailed | StepCancelled

  function StepStatusName(s: StepStatus): string {
    match s
    case StepPending => "PENDING"
    case StepRunning => "RUNNING"
    case StepCompleted => "COMPLETED"
    case StepFailed => "FAILED"
    case StepCancelled => "CANCELLED"
  }

  /** `StepInstance`. The struct in `engine/internal/models` declares no
      WorkflowInstanceID, although NewInstance and the step executor use
      one; it is kept here. */
  datatype StepInstance = StepInstance(
    id: string,
    workflowDefinitionId: string,
    workflowInstanceId: string,
    stepId: string,
    status: StepStatus,
    input: Option<UJ.UnknownJson>,
    output: Option<UJ.UnknownJson>,
    errorMessage: Option<string>)

  datatype WorkflowStatus = WorkflowPending | WorkflowRunning | WorkflowCompleted | WorkflowFailed | WorkflowCancelled

  datatype WorkflowInstance = WorkflowInstance(
    id: string,
    workflowDefinitionId: string,
    status: WorkflowStatus,
    input: Option<UJ.UnknownJson>,
    output: Option<UJ.UnknownJson>,
    errorMessage: Option<string>)

  /** `WorkflowDefinition` of this generation (with an IsDraft flag). */
  datatype WorkflowDefinition = WorkflowDefinition(
    id: string,
    name: string,
    description: string,
    version: string,
    isDraft: bool,
    isEnabled: bool,
    steps: Option<seq<StepDefinition>>,
    metadata: JsonMap)

  /** The step has the config its Type names. */
  predicate HasConfigForType(def: StepDefinition) {
    && (def.stepType == TaskType ==> def.taskConfig.Some?)
    && (def.stepType == WorkflowType ==> def.workflowConfig.Some?)
    && (def.stepType == WaitType ==> def.waitConfig.Some?)
    && (def.stepType == DecisionType ==> def.decisionConfig.Some?)
    && (def.stepType == ForkType ==> def.forkConfig.Some?)
    && (def.stepType == JoinType ==> def.joinConfig.Some?)
  }

  lemma StepTypesDistinct()
    ensures forall i, j :: 0 <= i < j < |StepTypes| ==> StepTypes[i] != StepTypes[j]
  {
  }

  /** `WorkflowStepDefinition.NewInstance`; `freshId` stands for `uuid.New()`. */
  function NewInstance(def: StepDefinition, workflowDefinitionId: string, workflowInstanceId: string,
                       input: Option<JsonMap>, freshId: string): (r: StepInstance)
    ensures r.status == StepPending
    ensures r.stepId == def.name
    ensures r.workflowDefinitionId == workflowDefinitionId && r.workflowInstanceId == workflowInstanceId
    ensures r.id == freshId
    ensures UJ.ToMap(r.input) == input
    ensures r.output.None? && r.errorMessage.None?
  {
    StepInstance(freshId, workflowDefinitionId, workflowInstanceId, def.name, StepPending,
                 UJ.FromMap(input), None, None)
  }

  /** The instance's StepID is the definition's Name, so two definitions that
      differ only in StepDefinitionID give the same instance. */
  lemma NewInstanceIgnoresDefinitionId(def: StepDefinition, otherId: string, wd: string, wi: string,
                                       input: Option<JsonMap>, freshId: string)
    ensures NewInstance(def, wd, wi, input, freshId)
         == NewInstance(def.(stepDefinitionId := otherId), wd, wi, input, freshId)
  {
  }
}
