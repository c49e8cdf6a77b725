/** The workflow definition of the engine-new generation
    (`engine-new/internal/models/workflow_definition.go`). */
module EngineNewModels {
  import opened Wrappers
  import Json
  import Seqs

  /** A step definition, reduced to the fields this model reads; the rest of
      the engine-new step model is not part of this model. */
  datatype StepDefinition = StepDefinition(stepDefinitionId: string, name: string)

  /** `WorkflowDefinition`; `steps` is None for a nil `*WorkflowStepDefinitionList`.
      Timestamps and parameter lists are not modelled. */
  datatype WorkflowDefinition = WorkflowDefinition(
    id: string,
    name: string,
    description: string,
    version: string,
    isEnabled: bool,
    steps: Option<seq<StepDefinition>>,
    metadata: Option<Json.JsonMap>)

  const ErrWorkflowDefinitionNoSteps: string := "workflow definition has no steps"

  function StepsOf(def: WorkflowDefinition): seq<StepDefinition> {
    def.steps.GetOr([])
  }

  /** `GetFirstStep`: the first step, or the no-steps error for nil or empty steps. */
  function GetFirstStep(def: WorkflowDefinition): (r: Result<StepDefinition, string>)
    ensures r.Err? <==> |StepsOf(def)| == 0
    ensures r.Err? ==> r.error == ErrWorkflowDefinitionNoSteps
    ensures r.Ok? ==> |StepsOf(def)| > 0 && r.value == StepsOf(def)[0]
  {
    if def.steps.None? || |def.steps.value| == 0 then Err(ErrWorkflowDefinitionNoSteps)
    else Ok(def.steps.value[0])
  }

  /** `GetStepByID`: the first step whose StepDefinitionID is `id`. */
  function GetStepByID(def: WorkflowDefinition, id: string): (r: Option<StepDefinition>)
    ensures r.Some? ==> r.value.stepDefinitionId == id && r.value in StepsOf(def)
    ensures r.None? <==> forall k :: 0 <= k < |StepsOf(def)| ==> StepsOf(def)[k].stepDefinitionId != id
    ensures def.steps.None? ==> r.None?
  {
    if def.steps.None? then None
    else
      var steps := def.steps.value;
      match Seqs.FirstIndex(steps, (s: StepDefinition) => s.stepDefinitionId == id)
      case None => None
      case Some(i) => Some(steps[i])
  }

  /** GetStepByID answers with the first matching step, so two steps sharing
      an id make the later one unreachable. */
  lemma GetStepByIDIsFirst(def: WorkflowDefinition, id: string, k: nat)
    requires k < |StepsOf(def)| && StepsOf(def)[k].stepDefinitionId == id
    ensures GetStepByID(def, id).Some?
    ensures exists j :: 0 <= j <= k && GetStepByID(def, id) == Some(StepsOf(def)[j])
  {
    var steps := def.steps.value;
    var p := (s: StepDefinition) => s.stepDefinitionId == id;
    var i := Seqs.FirstIndex(steps, p);
    assert p(steps[k]);
    assert i.Some? && i.value <= k;
  }

  /** The first step is found again by its own id. */
  lemma FirstStepFoundById(def: WorkflowDefinition)
    requires GetFirstStep(def).Ok?
    ensures GetStepByID(def, GetFirstStep(def).value.stepDefinitionId) == Some(GetFirstStep(def).value)
  {
    var first := GetFirstStep(def).value;
    GetStepByIDIsFirst(def, first.stepDefinitionId, 0);
  }
}
