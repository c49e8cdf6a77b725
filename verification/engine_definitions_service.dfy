/** Changing a stored workflow definition in the `engine` generation: the
    partial update request (`engine/internal/models/update_workflow_def_request.go`,
    repeated verbatim in `engine/internal/contracts/update_workflow_def_request.go`)
    and the enable, disable and publish operations of
    `engine/internal/service/workflow_definitions_service.go`. The
    persistence layer is an oracle: its lookup answers a definition, nil
    or an error, and its update answers an error. */
module EngineDefinitionsService {
  import opened Wrappers
  import opened GoErrors
  import M = EngineModels

  /** `UpdateWorkflowDefRequest`: three optional fields. */
  datatype UpdateRequest = UpdateRequest(
    name: Option<string>,
    description: Option<string>,
    steps: Option<seq<M.StepDefinition>>)

  const EmptyRequest: UpdateRequest := UpdateRequest(None, None, None)

  /** `ToWorkflowDefinition`: name, description and steps are overwritten
      exactly when the request provides them; everything else is kept. */
  function ApplyUpdate(req: UpdateRequest, def: M.WorkflowDefinition): (r: M.WorkflowDefinition)
    ensures r.name == (if req.name.Some? then req.name.value else def.name)
    ensures r.description == (if req.description.Some? then req.description.value else def.description)
    ensures r.steps == (if req.steps.Some? then req.steps else def.steps)
    ensures r == def.(name := r.name, description := r.description, steps := r.steps)
  {
    var def := if req.name.Some? then def.(name := req.name.value) else def;
    var def := if req.description.Some? then def.(description := req.description.value) else def;
    if req.steps.Some? then def.(steps := req.steps) else def
  }

  /** Two requests applied in turn: the later one's fields win. */
  function Then(a: UpdateRequest, b: UpdateRequest): UpdateRequest {
    UpdateRequest(
      if b.name.Some? then b.name else a.name,
      if b.description.Some? then b.description else a.description,
      if b.steps.Some? then b.steps else a.steps)
  }

  /** The update is the identity on an empty request, idempotent, and two
      updates are one update with the combined request. */
  lemma ApplyUpdateLaws(def: M.WorkflowDefinition, a: UpdateRequest, b: UpdateRequest)
    ensures ApplyUpdate(EmptyRequest, def) == def
    ensures ApplyUpdate(a, ApplyUpdate(a, def)) == ApplyUpdate(a, def)
    ensures ApplyUpdate(b, ApplyUpdate(a, def)) == ApplyUpdate(Then(a, b), def)
  {
  }

  /** A field is changed only by a request that provides it: if the
      updated definition differs in a field, the request named it. */
  lemma ApplyUpdateChangesOnlyProvided(req: UpdateRequest, def: M.WorkflowDefinition)
    ensures ApplyUpdate(req, def).name != def.name ==> req.name == Some(ApplyUpdate(req, def).name)
    ensures ApplyUpdate(req, def).description != def.description ==> req.description == Some(ApplyUpdate(req, def).description)
    ensures ApplyUpdate(req, def).steps != def.steps ==> req.steps == ApplyUpdate(req, def).steps
  {
  }

  /** What a service operation did: it returned an error (and perhaps wrote
      a definition), or it dereferenced a nil definition and panicked. */
  datatype Outcome =
    | Returned(err: Option<GoError>, written: Option<M.WorkflowDefinition>)
    | NilDereference

  /** The shape of Enable, Disable and Publish: look the definition up,
      return a lookup error unchanged, change one flag and save. A lookup
      that answers neither a definition nor an error leaves a nil pointer,
      which the flag assignment dereferences. */
  function Modify(lookup: Result<Option<M.WorkflowDefinition>, GoError>, change: M.WorkflowDefinition -> M.WorkflowDefinition,
                  updateErr: Option<GoError>): (r: Outcome)
    ensures lookup.Err? ==> r == Returned(Some(lookup.error), None)
    ensures lookup == Ok(None) ==> r.NilDereference?
    ensures lookup.Ok? && lookup.value.Some? ==> r == Returned(updateErr, Some(change(lookup.value.value)))
  {
    match lookup
    case Err(e) => Returned(Some(e), None)
    case Ok(None) => NilDereference
    case Ok(Some(def)) => Returned(updateErr, Some(change(def)))
  }

  /** `Enable`: saves the definition with the enabled flag set. */
  function Enable(lookup: Result<Option<M.WorkflowDefinition>, GoError>, updateErr: Option<GoError>): (r: Outcome)
    ensures lookup.Err? ==> r == Returned(Some(lookup.error), None)
    ensures lookup.Ok? && lookup.value.Some? ==>
              r == Returned(updateErr, Some(lookup.value.value.(isEnabled := true)))
  {
    Modify(lookup, (d: M.WorkflowDefinition) => d.(isEnabled := true), updateErr)
  }

  /** `Disable`: saves the definition with the enabled flag cleared. */
  function Disable(lookup: Result<Option<M.WorkflowDefinition>, GoError>, updateErr: Option<GoError>): (r: Outcome)
    ensures lookup.Err? ==> r == Returned(Some(lookup.error), None)
    ensures lookup.Ok? && lookup.value.Some? ==>
              r == Returned(updateErr, Some(lookup.value.value.(isEnabled := false)))
  {
    Modify(lookup, (d: M.WorkflowDefinition) => d.(isEnabled := false), updateErr)
  }

  /** `Publish`: saves the definition with the draft flag cleared; the
      version string is not touched. */
  function Publish(lookup: Result<Option<M.WorkflowDefinition>, GoError>, updateErr: Option<GoError>): (r: Outcome)
    ensures lookup.Err? ==> r == Returned(Some(lookup.error), None)
    ensures lookup.Ok? && lookup.value.Some? ==>
              r == Returned(updateErr, Some(lookup.value.value.(isDraft := false)))
  {
    Modify(lookup, (d: M.WorkflowDefinition) => d.(isDraft := false), updateErr)
  }

  /** Repeating any of the three on the definition it saved saves that same
      definition again; the last of an enable and a disable decides; and
      publishing keeps the version and the enabled flag. */
  lemma ModifyIdempotent(def: M.WorkflowDefinition, updateErr: Option<GoError>)
    ensures Enable(Ok(Enable(Ok(Some(def)), None).written), updateErr) == Enable(Ok(Some(def)), updateErr)
    ensures Disable(Ok(Disable(Ok(Some(def)), None).written), updateErr) == Disable(Ok(Some(def)), updateErr)
    ensures Publish(Ok(Publish(Ok(Some(def)), None).written), updateErr) == Publish(Ok(Some(def)), updateErr)
    ensures Disable(Ok(Enable(Ok(Some(def)), None).written), updateErr) == Disable(Ok(Some(def)), updateErr)
    ensures var p := Publish(Ok(Some(def)), updateErr).written.value;
            p.version == def.version && p.isEnabled == def.isEnabled && !p.isDraft
  {
  }
}
