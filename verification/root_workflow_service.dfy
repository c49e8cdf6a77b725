/** Starting a workflow in the root generation
    (`internal/services/workflow_service.go`). The root workflow-instance
    model file is not part of this model; the instance below has the fields
    `StartWorkflow` sets. The definition lookup, the instance insert, the
    fresh uuid, the clock and the conversion of the protobuf input and
    metadata to JSON are oracle inputs. */
module RootWorkflowService {
  import opened Wrappers
  import opened GoErrors
  import RootModels
  import V1StepInput

  datatype WorkflowInstanceStatus = WfPending | WfRunning | WfCompleted | WfFailed | WfCanceled | WfPaused

  /** A workflow instance; `input` and `metadata` are raw JSON columns as
      `GetValueMap` reads them. */
  datatype WorkflowInstance = WorkflowInstance(
    id: string,
    workflowDefinitionId: string,
    status: WorkflowInstanceStatus,
    createdAt: int,
    updatedAt: int,
    input: V1StepInput.RawJson,
    metadata: V1StepInput.RawJson)

  /** `uuid.Nil`, returned alongside every error. */
  const NilUuid: string := "00000000-0000-0000-0000-000000000000"

  /** The outside world of one call: the stored definitions, whether their
      read or the insert fails and with which error, the uuid drawn, the
      clock, and the JSON the protobuf structs convert to. */
  datatype StartOracle = StartOracle(
    readFails: bool,
    createFails: bool,
    dbError: GoError,
    freshId: string,
    now: int,
    inputJson: V1StepInput.RawJson,
    metadataJson: V1StepInput.RawJson)

  const ErrRecordNotFound: string := "record not found"

  /** `StartWorkflow`: the id returned, the error, and the row inserted
      (None when nothing was stored). Nothing is enqueued. */
  function StartWorkflow(defs: map<string, RootModels.WorkflowDefinition>, definitionId: string, o: StartOracle)
    : (r: (string, Option<GoError>, Option<WorkflowInstance>))
    ensures r.1.Some? <==> o.readFails || definitionId !in defs || o.createFails
    ensures r.1.Some? ==> r.0 == NilUuid && r.2.None?
    ensures r.1.None? ==> r.2.Some? && r.0 == r.2.value.id == o.freshId
    ensures r.2.Some? ==>
      && r.2.value.status == WfPending
      && r.2.value.workflowDefinitionId == defs[definitionId].id
      && r.2.value.createdAt == r.2.value.updatedAt
      && r.2.value.input == o.inputJson && r.2.value.metadata == o.metadataJson
  {
    if o.readFails then (NilUuid, Some(o.dbError), None)
    else if definitionId !in defs then (NilUuid, Some(New(ErrRecordNotFound)), None)
    else
      var def := defs[definitionId];
      var instance := WorkflowInstance(o.freshId, def.id, WfPending, o.now, o.now, o.inputJson, o.metadataJson);
      if o.createFails then (NilUuid, Some(o.dbError), None)
      else (instance.id, None, Some(instance))
  }
}
