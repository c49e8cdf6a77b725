/** Step instances of the root generation: the model
    (`internal/models/step_instance.go`), the partial-update request
    (`internal/dto/step_instances.go`) and the service that applies it
    (`internal/services/step_instances_service.go`). The repository is an
    abstract map from id to row; whether a database call fails, and the id
    the database assigns on insert, are oracle inputs. Timestamps are
    abstract integers. */
module RootStepInstances {
  import opened Wrappers
  import opened GoErrors
  import opened Json

  datatype StepInstanceStatus = Pending | Running | Completed | Failed | Canceled | Paused

  /** The string stored for each status. */
  function StatusName(s: StepInstanceStatus): string {
    match s
    case Pending => "pending"
    case Running => "running"
    case Completed => "completed"
    case Failed => "failed"
    case Canceled => "canceled"
    case Paused => "paused"
  }

  /** `StepInstance`. A `datatypes.JSONMap` column may be a nil map, which
      serialises differently from an empty one: `None` is the nil map. */
  datatype StepInstance = StepInstance(
    id: string,
    workflowInstanceId: string,
    stepId: string,
    status: StepInstanceStatus,
    createdAt: int,
    updatedAt: int,
    startedAt: Option<int>,
    completedAt: Option<int>,
    input: Option<JsonMap>,
    output: Option<JsonMap>,
    metadata: Option<JsonMap>)

  /** `UpdateStepInstanceRequest`: every field is optional (a Go pointer);
      `output` and `metadata` point at a map that may itself be nil. */
  datatype UpdateRequest = UpdateRequest(
    status: Option<StepInstanceStatus>,
    output: Option<Option<JsonMap>>,
    metadata: Option<Option<JsonMap>>,
    startedAt: Option<int>,
    completedAt: Option<int>)

  const EmptyRequest: UpdateRequest := UpdateRequest(None, None, None, None, None)

  /** `updatePartialStepInstance`: each provided field overwrites the stored
      one. No status transition is checked. */
  function UpdatePartial(si: StepInstance, req: UpdateRequest): (r: StepInstance)
    ensures r.status == (if req.status.Some? then req.status.value else si.status)
    ensures r.output == (if req.output.Some? then req.output.value else si.output)
    ensures r.metadata == (if req.metadata.Some? then req.metadata.value else si.metadata)
    ensures r.startedAt == (if req.startedAt.Some? then req.startedAt else si.startedAt)
    ensures r.completedAt == (if req.completedAt.Some? then req.completedAt else si.completedAt)
    ensures r.id == si.id && r.workflowInstanceId == si.workflowInstanceId && r.stepId == si.stepId
    ensures r.input == si.input && r.createdAt == si.createdAt && r.updatedAt == si.updatedAt
  {
    si.(status := req.status.GetOr(si.status),
        output := req.output.GetOr(si.output),
        metadata := req.metadata.GetOr(si.metadata),
        startedAt := if req.startedAt.Some? then req.startedAt else si.startedAt,
        completedAt := if req.completedAt.Some? then req.completedAt else si.completedAt)
  }

  /** An empty request changes nothing. */
  lemma UpdatePartialIdentity(si: StepInstance)
    ensures UpdatePartial(si, EmptyRequest) == si
  {
  }

  /** Applying a request twice is the same as applying it once. */
  lemma UpdatePartialIdempotent(si: StepInstance, req: UpdateRequest)
    ensures UpdatePartial(UpdatePartial(si, req), req) == UpdatePartial(si, req)
  {
  }

  /** Any status may replace any other: a completed or failed step can be
      set back to pending. */
  lemma NoTransitionCheck(si: StepInstance, s: StepInstanceStatus)
    ensures UpdatePartial(si, EmptyRequest.(status := Some(s))).status == s
    ensures UpdatePartial(si, EmptyRequest.(status := Some(s))) == si.(status := s)
  {
  }

  /** The repository's rows, keyed by step-instance id. */
  type Store = map<string, StepInstance>

  /** The repository's answers for one call. `dbError` is the error a
      failing call returns; gorm reports a missing row as "record not found". */
  datatype RepoOracle = RepoOracle(readFails: bool, writeFails: bool, dbError: GoError, assignedId: string)

  const ErrRecordNotFound: string := "record not found"

  /** `CreateStepInstance`: the instance, with the id the database assigned,
      is stored and returned; on a failing write nothing is stored and the
      error is returned instead of an instance. */
  function CreateStepInstance(store: Store, si: StepInstance, repo: RepoOracle): (r: (Result<StepInstance, GoError>, Store))
    ensures repo.writeFails ==> r == (Err(repo.dbError), store)
    ensures !repo.writeFails ==> r.0 == Ok(si.(id := repo.assignedId))
    ensures !repo.writeFails ==> r.1 == store[repo.assignedId := si.(id := repo.assignedId)]
  {
    if repo.writeFails then (Err(repo.dbError), store)
    else
      var created := si.(id := repo.assignedId);
      (Ok(created), store[created.id := created])
  }

  /** A created step instance is found again under the id the database
      assigned: an update with a healthy repository merges into exactly the
      row that was created, and the rows under other ids are untouched. */
  lemma CreateThenUpdate(store: Store, si: StepInstance, repo: RepoOracle, req: UpdateRequest, repo2: RepoOracle)
    requires !repo.writeFails && !repo2.readFails && !repo2.writeFails
    ensures var created := CreateStepInstance(store, si, repo);
            && UpdateStepInstance(created.1, repo.assignedId, req, repo2).0 == Ok(UpdatePartial(created.0.value, req))
            && (forall id :: id in store && id != repo.assignedId ==> id in created.1 && created.1[id] == store[id])
  {
  }

  /** `UpdateStepInstance`: a failing or missing lookup returns its error
      and writes nothing; otherwise the row is merged and written back. */
  function UpdateStepInstance(store: Store, id: string, req: UpdateRequest, repo: RepoOracle)
    : (r: (Result<StepInstance, GoError>, Store))
    ensures r.0.Err? ==> r.1 == store
    ensures repo.readFails ==> r.0 == Err(repo.dbError)
    ensures !repo.readFails && id !in store ==> r.0 == Err(New(ErrRecordNotFound))
    ensures r.0.Ok? <==> !repo.readFails && id in store && !repo.writeFails
    ensures r.0.Ok? ==> r.0.value == UpdatePartial(store[id], req) && r.1 == store[id := r.0.value]
  {
    if repo.readFails then (Err(repo.dbError), store)
    else if id !in store then (Err(New(ErrRecordNotFound)), store)
    else
      var merged := UpdatePartial(store[id], req);
      if repo.writeFails then (Err(repo.dbError), store)
      else (Ok(merged), store[id := merged])
  }

  /** A successful update touches only its own row, and repeating it leaves
      the store as it was after the first. */
  lemma UpdateStepInstanceFrame(store: Store, id: string, req: UpdateRequest, repo: RepoOracle, other: string)
    requires UpdateStepInstance(store, id, req, repo).0.Ok? && other != id
    ensures var s1 := UpdateStepInstance(store, id, req, repo).1;
            && id in s1 && (other in s1 <==> other in store)
            && (other in store ==> s1[other] == store[other])
            && UpdateStepInstance(s1, id, req, repo).1 == s1
  {
    var s1 := UpdateStepInstance(store, id, req, repo).1;
    UpdatePartialIdempotent(store[id], req);
    assert s1[id] == UpdatePartial(store[id], req);
  }
}
