/** The services of the `_v1` generation
    (`_v1/internal/services/workflow_instances_service.go` and
    `workflow_definitions_service.go`). The repository is an oracle: each
    call receives what the repository's lookup answers and the error its
    write returns, and reports the rows it asked the repository to write.
    Raw JSON columns (`datatypes.JSON`) are kept as their text. The methods
    that only forward to the repository (get by id, search, delete) are not
    modelled. */
module V1Services {
  import opened Wrappers
  import opened GoErrors
  import opened Json
  import R = RootModels

  /** A row the service asked the repository to write. */
  datatype Write<T> = Create(row: T) | Update(row: T)

  /** What a service call did: the row it returned (None for a nil
      pointer), its error, and its writes. */
  datatype Call<T> = Call(value: Option<T>, err: Option<GoError>, writes: seq<Write<T>>)

  /** The call of an update-style method: a lookup error is returned as is,
      with nothing returned and nothing written; otherwise the changed row is
      returned together with the error of writing it. */
  function UpdateCall<T>(lookup: Result<T, GoError>, change: T -> T, updateErr: Option<GoError>): (r: Call<T>)
    ensures lookup.Err? ==> r == Call(None, Some(lookup.error), [])
    ensures lookup.Ok? ==> r == Call(Some(change(lookup.value)), updateErr, [Update(change(lookup.value))])
  {
    match lookup
    case Err(e) => Call(None, Some(e), [])
    case Ok(row) => var changed := change(row); Call(Some(changed), updateErr, [Update(changed)])
  }

  // ---------------------------------------------------------------------------
  // Workflow instances

  const StatusPending: string := "pending"

  /** `WorkflowInstance` without its timestamps. */
  datatype WorkflowInstance = WorkflowInstance(
    id: string,
    workflowDefinitionId: string,
    status: string,
    input: string,
    output: string,
    metadata: string)

  datatype CreateInstanceRequest = CreateInstanceRequest(workflowDefinitionId: string, input: string, metadata: Option<string>)

  /** `UpdateWorkflowInstanceRequest`: every field is an optional pointer. */
  datatype UpdateInstanceRequest = UpdateInstanceRequest(status: Option<string>, output: Option<string>, metadata: Option<string>)

  const EmptyInstanceRequest: UpdateInstanceRequest := UpdateInstanceRequest(None, None, None)

  /** `GetAllWorkflowInstances`: a repository error is returned as is;
      otherwise a copy of every row, in order. */
  method GetAllInstances(fetched: Result<seq<WorkflowInstance>, GoError>) returns (r: Option<seq<WorkflowInstance>>, err: Option<GoError>)
    ensures fetched.Err? ==> r.None? && err == Some(fetched.error)
    ensures fetched.Ok? ==> err.None? && r == Some(fetched.value)
  {
    if fetched.Err? {
      return None, Some(fetched.error);
    }
    var rows := fetched.value;
    var res: seq<WorkflowInstance> := [];
    var i := 0;
    while i < |rows|
      invariant 0 <= i <= |rows|
      invariant res == rows[..i]
    {
      var copyItem := rows[i];
      res := res + [copyItem];
      i := i + 1;
    }
    assert rows[..i] == rows;
    return Some(res), None;
  }

  /** `CreateWorkflowInstance`: a new pending instance of the request's
      definition and input, with `{}` as metadata unless the request brings
      some; it is returned even when the repository fails to create it. The
      id is left to the database. */
  function CreateInstance(req: CreateInstanceRequest, createErr: Option<GoError>): (r: Call<WorkflowInstance>)
    ensures r.value.Some? && r.err == createErr && r.writes == [Create(r.value.value)]
    ensures var wf := r.value.value;
            && wf.status == StatusPending
            && wf.workflowDefinitionId == req.workflowDefinitionId && wf.input == req.input
            && wf.output == ""
            && (req.metadata.None? ==> wf.metadata == "{}")
            && (req.metadata.Some? ==> wf.metadata == req.metadata.value)
  {
    var wf := WorkflowInstance("", req.workflowDefinitionId, StatusPending, req.input, "", "{}");
    var wf := if req.metadata.Some? then wf.(metadata := req.metadata.value) else wf;
    Call(Some(wf), createErr, [Create(wf)])
  }

  /** `updatePartialWorkflowInstance`: output, metadata and status are
      overwritten when the request carries them; a missing field never
      clears anything. */
  function MergeInstance(wf: WorkflowInstance, req: UpdateInstanceRequest): (r: WorkflowInstance)
    ensures r.output == (if req.output.Some? then req.output.value else wf.output)
    ensures r.metadata == (if req.metadata.Some? then req.metadata.value else wf.metadata)
    ensures r.status == (if req.status.Some? then req.status.value else wf.status)
    ensures r.id == wf.id && r.workflowDefinitionId == wf.workflowDefinitionId && r.input == wf.input
  {
    var wf := if req.output.Some? then wf.(output := req.output.value) else wf;
    var wf := if req.metadata.Some? then wf.(metadata := req.metadata.value) else wf;
    if req.status.Some? then wf.(status := req.status.value) else wf
  }

  /** Two requests applied one after the other: the later one's fields
      win. */
  function ThenInstance(a: UpdateInstanceRequest, b: UpdateInstanceRequest): UpdateInstanceRequest {
    UpdateInstanceRequest(
      if b.status.Some? then b.status else a.status,
      if b.output.Some? then b.output else a.output,
      if b.metadata.Some? then b.metadata else a.metadata)
  }

  /** The instance merge is the identity on an empty request, idempotent,
      and two merges are one merge of the combined request. */
  lemma MergeInstanceLaws(wf: WorkflowInstance, a: UpdateInstanceRequest, b: UpdateInstanceRequest)
    ensures MergeInstance(wf, EmptyInstanceRequest) == wf
    ensures MergeInstance(MergeInstance(wf, a), a) == MergeInstance(wf, a)
    ensures MergeInstance(MergeInstance(wf, a), b) == MergeInstance(wf, ThenInstance(a, b))
  {
  }

  /** `UpdateWorkflowInstance`. */
  function UpdateInstance(lookup: Result<WorkflowInstance, GoError>, req: UpdateInstanceRequest, updateErr: Option<GoError>)
    : (r: Call<WorkflowInstance>)
    ensures lookup.Err? ==> r.value.None? && r.err == Some(lookup.error) && r.writes == []
    ensures lookup.Ok? ==> r.err == updateErr && r.writes == [Update(MergeInstance(lookup.value, req))]
                           && r.value == Some(MergeInstance(lookup.value, req))
  {
    UpdateCall(lookup, (wf: WorkflowInstance) => MergeInstance(wf, req), updateErr)
  }

  /** Updating with an empty request writes back the row it found,
      unchanged. */
  lemma EmptyUpdateRewrites(lookup: Result<WorkflowInstance, GoError>, updateErr: Option<GoError>)
    requires lookup.Ok?
    ensures UpdateInstance(lookup, EmptyInstanceRequest, updateErr).writes == [Update(lookup.value)]
  {
    MergeInstanceLaws(lookup.value, EmptyInstanceRequest, EmptyInstanceRequest);
  }

  // ---------------------------------------------------------------------------
  // Workflow definitions

  /** `CreateWorkflowDefinitionRequest`. */
  datatype CreateDefinitionRequest = CreateDefinitionRequest(
    name: string,
    description: string,
    version: string,
    metadata: Option<JsonMap>,
    inputParameters: JsonMap,
    outputParameters: JsonMap,
    steps: seq<R.WorkflowStep>,
    isEnabled: bool)

  /** `UpdateWorkflowDefinitionRequest`: seven optional fields; a provided
      metadata may itself be JSON null. */
  datatype UpdateDefinitionRequest = UpdateDefinitionRequest(
    description: Option<string>,
    version: Option<string>,
    metadata: Option<Option<JsonMap>>,
    inputParameters: Option<JsonMap>,
    outputParameters: Option<JsonMap>,
    steps: Option<seq<R.WorkflowStep>>,
    isEnabled: Option<bool>)

  const EmptyDefinitionRequest: UpdateDefinitionRequest := UpdateDefinitionRequest(None, None, None, None, None, None, None)

  /** `CreateWorkflowDefinition`: the request's fields copied verbatim, with
      steps and parameter maps always present; the id is left to the
      database. */
  function CreateDefinition(req: CreateDefinitionRequest, createErr: Option<GoError>): (r: Call<R.WorkflowDefinition>)
    ensures r.value.Some? && r.err == createErr && r.writes == [Create(r.value.value)]
    ensures var wf := r.value.value;
            && wf.name == req.name && wf.description == req.description && wf.version == req.version
            && wf.metadata == req.metadata && wf.isEnabled == req.isEnabled
            && wf.steps == Some(req.steps)
            && wf.inputParameters == Some(req.inputParameters) && wf.outputParameters == Some(req.outputParameters)
  {
    var wf := R.WorkflowDefinition("", req.name, req.description, req.version,
                                   Some(req.inputParameters), Some(req.outputParameters), Some(req.steps),
                                   req.isEnabled, req.metadata);
    Call(Some(wf), createErr, [Create(wf)])
  }

  /** `updatePartialWorkflowDefinition`: each of the seven fields is
      overwritten when provided; the id and the name never change. */
  function MergeDefinition(wf: R.WorkflowDefinition, req: UpdateDefinitionRequest): (r: R.WorkflowDefinition)
    ensures r.id == wf.id && r.name == wf.name
    ensures r.description == (if req.description.Some? then req.description.value else wf.description)
    ensures r.version == (if req.version.Some? then req.version.value else wf.version)
    ensures r.metadata == (if req.metadata.Some? then req.metadata.value else wf.metadata)
    ensures r.steps == (if req.steps.Some? then req.steps else wf.steps)
    ensures r.inputParameters == (if req.inputParameters.Some? then req.inputParameters else wf.inputParameters)
    ensures r.outputParameters == (if req.outputParameters.Some? then req.outputParameters else wf.outputParameters)
    ensures r.isEnabled == (if req.isEnabled.Some? then req.isEnabled.value else wf.isEnabled)
  {
    wf.(description := if req.description.Some? then req.description.value else wf.description,
        version := if req.version.Some? then req.version.value else wf.version,
        metadata := if req.metadata.Some? then req.metadata.value else wf.metadata,
        steps := if req.steps.Some? then req.steps else wf.steps,
        inputParameters := if req.inputParameters.Some? then req.inputParameters else wf.inputParameters,
        outputParameters := if req.outputParameters.Some? then req.outputParameters else wf.outputParameters,
        isEnabled := if req.isEnabled.Some? then req.isEnabled.value else wf.isEnabled)
  }

  function Or<T>(later: Option<T>, earlier: Option<T>): (r: Option<T>)
    ensures later.Some? ==> r == later
    ensures later.None? ==> r == earlier
  {
    if later.Some? then later else earlier
  }

  /** Two definition requests applied in turn: the later one's fields win. */
  function ThenDefinition(a: UpdateDefinitionRequest, b: UpdateDefinitionRequest): UpdateDefinitionRequest {
    UpdateDefinitionRequest(
      Or(b.description, a.description), Or(b.version, a.version), Or(b.metadata, a.metadata),
      Or(b.inputParameters, a.inputParameters), Or(b.outputParameters, a.outputParameters),
      Or(b.steps, a.steps), Or(b.isEnabled, a.isEnabled))
  }

  /** The definition merge is the identity on an empty request, idempotent,
      and two merges are one merge of the combined request. */
  lemma MergeDefinitionLaws(wf: R.WorkflowDefinition, a: UpdateDefinitionRequest, b: UpdateDefinitionRequest)
    ensures MergeDefinition(wf, EmptyDefinitionRequest) == wf
    ensures MergeDefinition(MergeDefinition(wf, a), a) == MergeDefinition(wf, a)
    ensures MergeDefinition(MergeDefinition(wf, a), b) == MergeDefinition(wf, ThenDefinition(a, b))
  {
  }

  /** `UpdateWorkflowDefinition`. */
  function UpdateDefinition(lookup: Result<R.WorkflowDefinition, GoError>, req: UpdateDefinitionRequest, updateErr: Option<GoError>)
    : (r: Call<R.WorkflowDefinition>)
    ensures lookup.Err? ==> r.value.None? && r.err == Some(lookup.error) && r.writes == []
    ensures lookup.Ok? ==> r.err == updateErr && r.value == Some(MergeDefinition(lookup.value, req))
                           && r.writes == [Update(MergeDefinition(lookup.value, req))]
  {
    UpdateCall(lookup, (wf: R.WorkflowDefinition) => MergeDefinition(wf, req), updateErr)
  }

  /** `EnableWorkflowDefinition` (flag true) and `DisableWorkflowDefinition`
      (flag false): the found definition with only its enabled flag set. */
  function SetEnabled(lookup: Result<R.WorkflowDefinition, GoError>, flag: bool, updateErr: Option<GoError>)
    : (r: Call<R.WorkflowDefinition>)
    ensures lookup.Err? ==> r.value.None? && r.err == Some(lookup.error) && r.writes == []
    ensures lookup.Ok? ==> r.err == updateErr && r.value == Some(lookup.value.(isEnabled := flag))
                           && r.writes == [Update(lookup.value.(isEnabled := flag))]
  {
    UpdateCall(lookup, (wf: R.WorkflowDefinition) => wf.(isEnabled := flag), updateErr)
  }

  /** Enabling or disabling is the partial update that carries only the
      flag, so doing it twice writes the same row, and the last of an enable
      and a disable decides. */
  lemma SetEnabledIsPartialUpdate(wf: R.WorkflowDefinition, flag: bool, other: bool, updateErr: Option<GoError>)
    ensures SetEnabled(Ok(wf), flag, updateErr) == UpdateDefinition(Ok(wf), EmptyDefinitionRequest.(isEnabled := Some(flag)), updateErr)
    ensures SetEnabled(Ok(SetEnabled(Ok(wf), other, None).value.value), flag, updateErr) == SetEnabled(Ok(wf), flag, updateErr)
  {
  }
}
