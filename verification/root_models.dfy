/** The step graph of the root generation (`internal/models/workflow_step.go`,
    `internal/models/workflow_definition.go`). Go's `validate` tags become
    well-formedness predicates. */
module RootModels {
  import opened Wrappers
  import opened Json
  import Seqs
  import V1StepInput

  const TaskType: string := "task"
  const ForkType: string := "fork"
  const JoinType: string := "join"
  const DecisionType: string := "decision"
  const SubWorkflowType: string := "subworkflow"
  const WaitType: string := "wait"
  const ScriptType: string := "script"
  const HttpType: string := "http"
  const TerminateType: string := "terminate"

  /** The nine step-type tags. */
  const StepTypes: seq<string> :=
    [TaskType, ForkType, JoinType, DecisionType, SubWorkflowType, WaitType, ScriptType, HttpType, TerminateType]

  const InputBinding: string := "input"
  const ValueBinding: string := "value"

  /** `StepParameterBinding`; a nil `Value` is `Null`. */
  datatype StepParameterBinding = StepParameterBinding(bindingType: string, sourceKey: string, value: Value)

  datatype TaskStep = TaskStep(taskDefinitionId: string, nextStepId: string)
  datatype ForkBranch = ForkBranch(id: string, nextStepId: string)
  datatype ForkStep = ForkStep(joinStepId: string, branches: seq<ForkBranch>)
  datatype DecisionCase = DecisionCase(condition: string, nextStepId: string)
  datatype DecisionStep = DecisionStep(cases: seq<DecisionCase>)
  datatype JoinStep = JoinStep(originId: string, incomingStepIds: seq<string>, nextStepId: Option<string>)
  datatype SubWorkflowStep = SubWorkflowStep(workflowDefinitionId: string, nextStepId: string)
  datatype WaitStep = WaitStep(duration: StepParameterBinding, nextStepId: Option<string>)
  datatype TerminateStep = TerminateStep(reason: string)
  datatype ScriptStep = ScriptStep(script: string, nextStepId: string)
  datatype HttpStep = HttpStep(httpMethod: string, url: string, headers: map<string, string>, body: string, nextStepId: string)

  /** `WorkflowStep`: the base fields and one optional config per step type.
      The input map uses the `_v1` binding model; the root generation's own
      `workflow_step_input.go` is not part of this model. */
  datatype WorkflowStep = WorkflowStep(
    id: string,
    displayName: string,
    description: string,
    input: map<string, V1StepInput.WorkflowStepInput>,
    stepType: string,
    task: Option<TaskStep>,
    fork: Option<ForkStep>,
    decision: Option<DecisionStep>,
    join: Option<JoinStep>,
    subWorkflow: Option<SubWorkflowStep>,
    wait: Option<WaitStep>,
    terminate: Option<TerminateStep>,
    script: Option<ScriptStep>,
    http: Option<HttpStep>)

  /** `WorkflowDefinition`; `steps` and the parameter maps are None for a
      nil pointer. A parameter map is kept as its JSON object; timestamps
      are not modelled. */
  datatype WorkflowDefinition = WorkflowDefinition(
    id: string,
    name: string,
    description: string,
    version: string,
    inputParameters: Option<JsonMap>,
    outputParameters: Option<JsonMap>,
    steps: Option<seq<WorkflowStep>>,
    isEnabled: bool,
    metadata: Option<JsonMap>)

  /** The config that belongs to a step's type, whichever that is. */
  datatype StepConfig =
    | TaskConfig(task: TaskStep)
    | ForkConfig(fork: ForkStep)
    | JoinConfig(join: JoinStep)
    | DecisionConfig(decision: DecisionStep)
    | SubWorkflowConfig(subWorkflow: SubWorkflowStep)
    | WaitConfig(wait: WaitStep)
    | ScriptConfig(script: ScriptStep)
    | HttpConfig(http: HttpStep)
    | TerminateConfig(terminate: TerminateStep)

  function TagOf(c: StepConfig): string {
    match c
    case TaskConfig(_) => TaskType
    case ForkConfig(_) => ForkType
    case JoinConfig(_) => JoinType
    case DecisionConfig(_) => DecisionType
    case SubWorkflowConfig(_) => SubWorkflowType
    case WaitConfig(_) => WaitType
    case ScriptConfig(_) => ScriptType
    case HttpConfig(_) => HttpType
    case TerminateConfig(_) => TerminateType
  }

  /** The config field selected by the step's Type tag, if it is set. */
  function ConfigOf(step: WorkflowStep): (r: Option<StepConfig>)
    ensures r.Some? ==> TagOf(r.value) == step.stepType
    ensures step.stepType !in StepTypes ==> r.None?
  {
    if step.stepType == TaskType then (if step.task.Some? then Some(TaskConfig(step.task.value)) else None)
    else if step.stepType == ForkType then (if step.fork.Some? then Some(ForkConfig(step.fork.value)) else None)
    else if step.stepType == JoinType then (if step.join.Some? then Some(JoinConfig(step.join.value)) else None)
    else if step.stepType == DecisionType then
      (if step.decision.Some? then Some(DecisionConfig(step.decision.value)) else None)
    else if step.stepType == SubWorkflowType then
      (if step.subWorkflow.Some? then Some(SubWorkflowConfig(step.subWorkflow.value)) else None)
    else if step.stepType == WaitType then (if step.wait.Some? then Some(WaitConfig(step.wait.value)) else None)
    else if step.stepType == ScriptType then (if step.script.Some? then Some(ScriptConfig(step.script.value)) else None)
    else if step.stepType == HttpType then (if step.http.Some? then Some(HttpConfig(step.http.value)) else None)
    else if step.stepType == TerminateType then
      (if step.terminate.Some? then Some(TerminateConfig(step.terminate.value)) else None)
    else None
  }

  /** The `validate` tags of `StepParameterBinding`: `oneof=input value`,
      SourceKey `required_if=Type input`, Value `required_if=Type value`. */
  predicate WellFormedBinding(b: StepParameterBinding) {
    && (b.bindingType == InputBinding || b.bindingType == ValueBinding)
    && (b.bindingType == InputBinding ==> b.sourceKey != "")
    && (b.bindingType == ValueBinding ==> b.value != Null)
  }

  /** The `validate` tags of `WorkflowStep`: Id and Type required, and the
      config named by Type present (`required_if`). A Type outside the nine
      tags passes these tags. */
  predicate WellFormedStep(step: WorkflowStep) {
    && step.id != "" && step.stepType != ""
    && (step.stepType == TaskType ==> step.task.Some?)
    && (step.stepType == ForkType ==> step.fork.Some?)
    && (step.stepType == DecisionType ==> step.decision.Some?)
    && (step.stepType == JoinType ==> step.join.Some?)
    && (step.stepType == SubWorkflowType ==> step.subWorkflow.Some?)
    && (step.stepType == WaitType ==> step.wait.Some?)
    && (step.stepType == TerminateType ==> step.terminate.Some?)
    && (step.stepType == ScriptType ==> step.script.Some?)
    && (step.stepType == HttpType ==> step.http.Some?)
  }

  /** A well-formed step of a known type carries the config of that type,
      and conversely a step whose type has its config passes the type check. */
  lemma WellFormedCarriesConfig(step: WorkflowStep)
    requires step.id != "" && step.stepType in StepTypes
    ensures WellFormedStep(step) <==> ConfigOf(step).Some?
  {
  }

  /** The nine tags are pairwise distinct. */
  lemma StepTypesDistinct()
    ensures forall i, j :: 0 <= i < j < |StepTypes| ==> StepTypes[i] != StepTypes[j]
  {
  }

  /** `StepParameterBinding.GetValue`. */
  function GetValue(b: StepParameterBinding, input: JsonMap): (v: Value)
    ensures b.bindingType == InputBinding ==> v == Lookup(input, b.sourceKey)
    ensures b.bindingType == ValueBinding ==> v == b.value
    ensures b.bindingType != InputBinding && b.bindingType != ValueBinding ==> v == Null
  {
    if b.bindingType == InputBinding then Lookup(input, b.sourceKey)
    else if b.bindingType == ValueBinding then b.value
    else Null
  }

  /** A well-formed value binding is never nil; an input binding is nil
      exactly when its key is absent or holds null. */
  lemma GetValueOfWellFormed(b: StepParameterBinding, input: JsonMap)
    requires WellFormedBinding(b)
    ensures b.bindingType == ValueBinding ==> GetValue(b, input) != Null
    ensures b.bindingType == InputBinding ==>
      (GetValue(b, input) == Null <==> b.sourceKey !in input || input[b.sourceKey] == Null)
  {
  }

  /** `GetStepById`: the first step with that id, nil when none. The steps
      pointer is dereferenced unconditionally, so it must be set. */
  function GetStepById(def: WorkflowDefinition, stepId: string): (r: Option<WorkflowStep>)
    requires def.steps.Some?
    ensures r.Some? ==> r.value.id == stepId && r.value in def.steps.value
    ensures r.None? <==> forall k :: 0 <= k < |def.steps.value| ==> def.steps.value[k].id != stepId
  {
    var steps := def.steps.value;
    match Seqs.FirstIndex(steps, (s: WorkflowStep) => s.id == stepId)
    case None => None
    case Some(i) => Some(steps[i])
  }

  /** Among steps sharing an id, GetStepById returns the earliest. */
  lemma GetStepByIdIsFirst(def: WorkflowDefinition, stepId: string, k: nat)
    requires def.steps.Some? && k < |def.steps.value| && def.steps.value[k].id == stepId
    ensures exists j :: 0 <= j <= k && GetStepById(def, stepId) == Some(def.steps.value[j])
  {
    var p := (s: WorkflowStep) => s.id == stepId;
    assert p(def.steps.value[k]);
  }
}
