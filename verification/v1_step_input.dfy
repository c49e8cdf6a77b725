/** Resolution of step inputs in the `_v1` generation
    (`_v1/internal/models/workflow_step_input.go`). Raw JSON columns are
    given already decoded: `Some(m)` when the bytes decode to a JSON object
    (a JSON `null` decodes to the empty map), `None` when they do not. */
module V1StepInput {
  import opened Wrappers
  import opened Json

  const StepOutputType: string := "stepOutput"
  const WorkflowInputType: string := "workflowInput"
  const ConstantType: string := "constant"
  const ExpressionType: string := "expression"

  /** `WorkflowStepInput`; `inputType` is the raw tag, which may be any string. */
  datatype WorkflowStepInput = WorkflowStepInput(
    inputType: string,
    sourceStepId: string,
    sourceKey: string,
    constantValue: Value,
    expression: string)

  /** A raw JSON column as `json.Unmarshal` into a map sees it. */
  type RawJson = Option<JsonMap>

  /** `GetValue`: a step output's key, a workflow input's key, or the constant;
      nil for expressions, unknown tags and anything that does not decode. */
  function GetValue(w: WorkflowStepInput, stepOutputs: map<string, RawJson>, workflowInput: RawJson): (v: Value)
    ensures w.inputType == ConstantType ==> v == w.constantValue
    ensures w.inputType == WorkflowInputType ==>
      v == (if workflowInput.Some? then Lookup(workflowInput.value, w.sourceKey) else Null)
    ensures w.inputType == StepOutputType ==>
      v == (if w.sourceStepId in stepOutputs && stepOutputs[w.sourceStepId].Some?
            then Lookup(stepOutputs[w.sourceStepId].value, w.sourceKey) else Null)
    ensures w.inputType !in {StepOutputType, WorkflowInputType, ConstantType} ==> v == Null
  {
    if w.inputType == StepOutputType then
      if w.sourceStepId in stepOutputs then
        match stepOutputs[w.sourceStepId]
        case None => Null
        case Some(outputMap) => Lookup(outputMap, w.sourceKey)
      else Null
    else if w.inputType == WorkflowInputType then
      match workflowInput
      case None => Null
      case Some(inputMap) => Lookup(inputMap, w.sourceKey)
    else if w.inputType == ConstantType then w.constantValue
    else if w.inputType == ExpressionType then Null
    else Null
  }

  /** `GetValueMap`: every binding resolved under its own key. */
  function GetValueMap(inputs: map<string, WorkflowStepInput>, stepOutputs: map<string, RawJson>, workflowInput: RawJson)
    : (r: JsonMap)
    ensures r.Keys == inputs.Keys
    ensures forall key :: key in inputs ==> r[key] == GetValue(inputs[key], stepOutputs, workflowInput)
  {
    map key | key in inputs :: GetValue(inputs[key], stepOutputs, workflowInput)
  }

  /** A constant binding does not look at step outputs or workflow input. */
  lemma ConstantIsContextFree(w: WorkflowStepInput, o1: map<string, RawJson>, i1: RawJson,
                              o2: map<string, RawJson>, i2: RawJson)
    requires w.inputType == ConstantType
    ensures GetValue(w, o1, i1) == GetValue(w, o2, i2) == w.constantValue
  {
  }

  /** Resolved with no step outputs (as the root worker does), step-output
      bindings are nil and every other binding resolves as usual. */
  lemma NoStepOutputs(inputs: map<string, WorkflowStepInput>, workflowInput: RawJson, key: string)
    requires key in inputs
    ensures var r := GetValueMap(inputs, map[], workflowInput);
            && (inputs[key].inputType == StepOutputType ==> r[key] == Null)
            && (inputs[key].inputType != StepOutputType ==>
                  r[key] == GetValue(inputs[key], map[], workflowInput))
  {
  }

  /** GetValueMap is pointwise: adding a binding adds exactly its value. */
  lemma {:induction false} GetValueMapUpdate(inputs: map<string, WorkflowStepInput>, key: string, w: WorkflowStepInput,
                                             stepOutputs: map<string, RawJson>, workflowInput: RawJson)
    ensures GetValueMap(inputs[key := w], stepOutputs, workflowInput)
         == GetValueMap(inputs, stepOutputs, workflowInput)[key := GetValue(w, stepOutputs, workflowInput)]
  {
    var a := GetValueMap(inputs[key := w], stepOutputs, workflowInput);
    var b := GetValueMap(inputs, stepOutputs, workflowInput)[key := GetValue(w, stepOutputs, workflowInput)];
    assert a.Keys == b.Keys;
    forall k | k in a.Keys ensures a[k] == b[k] { }
  }
}
