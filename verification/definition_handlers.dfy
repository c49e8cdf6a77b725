/** The version policy and id checks of the workflow-definition HTTP handlers
    (`engine/internal/httpserver/workflow_definitions_handlers.go`). The
    repository is an abstract map from id to definition; whether a database
    call fails, and which id the database assigns on insert, are oracle
    inputs. A response is its status code and body. */
module DefinitionHandlers {
  import opened Wrappers
  import Semver
  import opened EngineNewModels

  /** The repository's rows, keyed by definition id. */
  type Store = map<string, WorkflowDefinition>

  datatype Body = ErrorBody(message: string) | DefinitionBody(definition: WorkflowDefinition) | NoBody

  /** A write the handler sent to the repository. */
  datatype Write = CreateCall(created: WorkflowDefinition) | UpdateCall(updated: WorkflowDefinition)

  datatype Outcome = Outcome(status: int, body: Body, write: Option<Write>, store: Store)

  /** The repository's answers for one request: a failing read, a failing
      write, and the id the database generates on insert. */
  datatype RepoOracle = RepoOracle(readFails: bool, writeFails: bool, assignedId: string)

  function Reply(status: int, message: string, store: Store): Outcome {
    Outcome(status, ErrorBody(message), None, store)
  }

  /** `strconv.ParseBool`: the accepted spellings of true and false; any
      other text, the empty one included, is a syntax error. */
  function ParseBool(s: string): (r: Option<bool>)
    ensures r == Some(true) <==> s in {"1", "t", "T", "TRUE", "true", "True"}
    ensures r == Some(false) <==> s in {"0", "f", "F", "FALSE", "false", "False"}
  {
    if s in {"1", "t", "T", "TRUE", "true", "True"} then Some(true)
    else if s in {"0", "f", "F", "FALSE", "false", "False"} then Some(false)
    else None
  }

  /** The `draft` query parameter bound by gin with the tag
      `default=true`: gin substitutes the default both for an absent
      parameter and for a present but empty one, then parses the text with
      `strconv.ParseBool`. None when binding fails. */
  function DraftFlag(query: Option<string>): (r: Option<bool>)
    ensures r == Some(true) <==> query.None? || query.value in {"", "1", "t", "T", "TRUE", "true", "True"}
    ensures r == Some(false) <==> query.Some? && query.value in {"0", "f", "F", "FALSE", "false", "False"}
    ensures r.None? <==> query.Some? && query.value != "" && ParseBool(query.value).None?
  {
    match query
    case None => ParseBool(DraftDefault)
    case Some(s) => ParseBool(if s == "" then DraftDefault else s)
  }

  /** The `default=` value of the `draft` tag. */
  const DraftDefault: string := "true"

  /** The version a new definition is stored with: InitialVersion, with
      pre-release "1" when created as a draft; an error when InitialVersion
      does not parse. */
  function CreatedVersion(isDraft: bool): Result<string, Semver.ParseError> {
    match Semver.Parse(Semver.InitialVersion())
    case Err(e) => Err(e)
    case Ok(version) =>
      Ok(Semver.ToString(if isDraft then version.(preRelease := "1") else version))
  }

  lemma InitialVersionStrings()
    ensures Semver.Parse(Semver.InitialVersion()) == Ok(Semver.Version(0, 1, 0, "", ""))
    ensures Semver.ToString(Semver.Version(0, 1, 0, "1", "")) == "0.1.0-1"
    ensures Semver.ToString(Semver.Version(0, 1, 0, "", "")) == "0.1.0"
  {
    Semver.InitialVersionParses(Semver.InitialVersion());
    Semver.InitialDraftPrinted(Semver.Version(0, 1, 0, "1", ""), "0.1.0-1");
    Semver.InitialPrinted(Semver.Version(0, 1, 0, "", ""), "0.1.0");
  }

  /** A draft is created as "0.1.0-1", a release as "0.1.0"; both parse
      back, and only the first is a draft. */
  lemma CreatedVersionValues(isDraft: bool)
    ensures CreatedVersion(isDraft) == Ok(if isDraft then "0.1.0-1" else "0.1.0")
    ensures Semver.Parse(CreatedVersion(isDraft).value).Ok?
    ensures Semver.IsDraft(Semver.Parse(CreatedVersion(isDraft).value).value) == isDraft
  {
    InitialVersionStrings();
    var v := Semver.Version(0, 1, 0, if isDraft then "1" else "", "");
    assert Semver.IsIdentString("1");
    Semver.ParseRoundTrip(v);
  }

  /** `GetWorkflowDefinitionByID`. */
  function GetByID(store: Store, id: string, repo: RepoOracle): (r: Outcome)
    ensures r.store == store && r.write.None?
    ensures repo.readFails ==> r.status == 500
    ensures !repo.readFails && id !in store ==> r.status == 404
    ensures !repo.readFails && id in store ==> r.status == 200 && r.body == DefinitionBody(store[id])
  {
    if repo.readFails then Reply(500, "Failed to retrieve workflow definition", store)
    else if id !in store then Reply(404, "Workflow definition not found", store)
    else Outcome(200, DefinitionBody(store[id]), None, store)
  }

  /** `CreateWorkflowDefinition`: `body` is None when the JSON body does not bind. */
  function Create(store: Store, draftQuery: Option<string>, body: Option<WorkflowDefinition>, repo: RepoOracle)
    : (r: Outcome)
    ensures DraftFlag(draftQuery).None? || body.None? ==> r.status == 400 && r.write.None?
    ensures r.write.Some? ==> r.write.value.CreateCall? && body.Some? && DraftFlag(draftQuery).Some?
    ensures r.write.Some? ==> Ok(r.write.value.created.version) == CreatedVersion(DraftFlag(draftQuery).value)
    ensures r.write.Some? ==> r.write.value.created == body.value.(version := r.write.value.created.version)
    ensures r.status == 201 <==> r.write.Some? && !repo.writeFails
    ensures r.status == 201 ==> r.store == store[repo.assignedId := r.write.value.created.(id := repo.assignedId)]
    ensures r.status != 201 ==> r.store == store
  {
    match DraftFlag(draftQuery)
    case None => Reply(400, "Invalid query parameters", store)
    case Some(isDraft) =>
      match body
      case None => Reply(400, "Invalid workflow definition data", store)
      case Some(definition) =>
        match CreatedVersion(isDraft)
        case Err(_) => Reply(500, "Failed to parse initial version", store)
        case Ok(version) =>
          var toCreate := definition.(version := version);
          if repo.writeFails then
            Outcome(500, ErrorBody("Failed to create workflow definition"), Some(CreateCall(toCreate)), store)
          else
            var created := toCreate.(id := repo.assignedId);
            Outcome(201, DefinitionBody(created), Some(CreateCall(toCreate)), store[repo.assignedId := created])
  }

  /** Create always reaches the repository once the request binds: the draft
      flag defaults to true, so an unflagged create writes "0.1.0-1", and
      draft=false writes "0.1.0"; the client's Version is overwritten. */
  lemma CreateVersionPolicy(store: Store, draftQuery: Option<string>, body: WorkflowDefinition, repo: RepoOracle)
    requires DraftFlag(draftQuery).Some?
    ensures var r := Create(store, draftQuery, Some(body), repo);
            r.write == Some(CreateCall(body.(version := if DraftFlag(draftQuery).value then "0.1.0-1" else "0.1.0")))
    ensures draftQuery.None? ==> Create(store, draftQuery, Some(body), repo).write.value.created.version == "0.1.0-1"
    ensures draftQuery == Some("false") ==> Create(store, draftQuery, Some(body), repo).write.value.created.version == "0.1.0"
  {
    CreatedVersionValues(DraftFlag(draftQuery).value);
  }

  /** `UpdateWorkflowDefinition`: `parsedId` is `uuid.Parse(id)`, None when
      the path id is not a UUID. */
  function Update(store: Store, body: Option<WorkflowDefinition>, parsedId: Option<string>, repo: RepoOracle)
    : (r: Outcome)
    ensures body.None? || parsedId.None? ==> r.status == 400 && r.write.None? && r.store == store
    ensures r.write.Some? ==> r.write == Some(UpdateCall(body.value.(id := parsedId.value)))
    ensures r.status == 200 <==> body.Some? && parsedId.Some? && !repo.writeFails
    ensures r.status == 200 ==> r.store == store[parsedId.value := body.value.(id := parsedId.value)]
    ensures r.status != 200 ==> r.store == store
  {
    match body
    case None => Reply(400, "Invalid workflow definition data", store)
    case Some(definition) =>
      match parsedId
      case None => Reply(400, "Invalid workflow definition ID", store)
      case Some(uuid) =>
        var updated := definition.(id := uuid);
        if repo.writeFails then
          Outcome(500, ErrorBody("Failed to update workflow definition"), Some(UpdateCall(updated)), store)
        else Outcome(200, DefinitionBody(updated), Some(UpdateCall(updated)), store[uuid := updated])
  }

  /** Reading back after a successful update answers 200 with the body as
      written, its id forced to the path id, and every other id answers as
      it did before the update. */
  lemma UpdateThenGet(store: Store, body: WorkflowDefinition, id: string, repo: RepoOracle, repo2: RepoOracle, other: string)
    requires !repo.writeFails && !repo2.readFails && other != id
    ensures var u := Update(store, Some(body), Some(id), repo);
            && GetByID(u.store, id, repo2) == Outcome(200, DefinitionBody(body.(id := id)), None, u.store)
            && GetByID(u.store, other, repo2).status == GetByID(store, other, repo2).status
            && GetByID(u.store, other, repo2).body == GetByID(store, other, repo2).body
  {
  }

  /** Reading back after a successful create answers 200 with the request
      body under the id the database assigned, carrying the initial version
      the draft flag selects. */
  lemma CreateThenGet(store: Store, draftQuery: Option<string>, body: WorkflowDefinition, repo: RepoOracle, repo2: RepoOracle)
    requires DraftFlag(draftQuery).Some? && !repo.writeFails && !repo2.readFails
    ensures var c := Create(store, draftQuery, Some(body), repo);
            var version := if DraftFlag(draftQuery).value then "0.1.0-1" else "0.1.0";
            GetByID(c.store, repo.assignedId, repo2)
              == Outcome(200, DefinitionBody(body.(version := version, id := repo.assignedId)), None, c.store)
  {
    CreatedVersionValues(DraftFlag(draftQuery).value);
  }

  /** `PublishWorkflowDefinition`. A definition that is not found comes back
      as nil without error and is dereferenced; gin's Recovery middleware
      turns that panic into a 500. */
  function Publish(store: Store, id: string, repo: RepoOracle): (r: Outcome)
    ensures r.status == 200 || r.store == store
    ensures repo.readFails || id !in store ==> r.status == 500 && r.write.None?
    ensures id in store && Semver.Parse(store[id].version).Err? ==> r.status == 500 && r.write.None?
    ensures r.write.Some? ==> id in store && Semver.Parse(store[id].version).Ok?
    ensures r.status == 400 <==>
      !repo.readFails && id in store && Semver.Parse(store[id].version).Ok?
      && !Semver.IsDraft(Semver.Parse(store[id].version).value)
    ensures r.status == 400 ==> r.write.None?
    ensures r.write.Some? ==> Semver.IsDraft(Semver.Parse(store[id].version).value)
    ensures r.status == 200 <==> r.write.Some? && !repo.writeFails
  {
    if repo.readFails then Reply(500, "Failed to retrieve workflow definition", store)
    else if id !in store then Outcome(500, NoBody, None, store)
    else
      var definition := store[id];
      match Semver.Parse(definition.version)
      case Err(_) => Reply(500, "Failed to parse workflow definition version", store)
      case Ok(version) =>
        if !Semver.IsDraft(version) then Reply(400, "Workflow definition is already published", store)
        else
          var published := definition.(version := Semver.ToString(Semver.ReleaseDraft(version)));
          if repo.writeFails then
            Outcome(500, ErrorBody("Failed to publish workflow definition"), Some(UpdateCall(published)), store)
          else Outcome(200, NoBody, Some(UpdateCall(published)), store[id := published])
  }

  /** Publishing a draft stores the same version with the pre-release removed
      and the build kept, and changes no other field. */
  lemma PublishReleasesDraft(store: Store, id: string, repo: RepoOracle)
    requires !repo.readFails && !repo.writeFails && id in store
    requires Semver.Parse(store[id].version).Ok? && Semver.IsDraft(Semver.Parse(store[id].version).value)
    ensures Publish(store, id, repo).status == 200
    ensures var v := Semver.Parse(store[id].version).value;
            Publish(store, id, repo).store == store[id := store[id].(version := Semver.ToString(v.(preRelease := "")))]
    ensures var v := Semver.Parse(store[id].version).value;
            Semver.Parse(Publish(store, id, repo).store[id].version) == Ok(v.(preRelease := ""))
  {
    var v := Semver.Parse(store[id].version).value;
    Semver.ParseRoundTrip(v.(preRelease := ""));
  }

  /** The life of a definition: created with no draft flag it is stored as
      "0.1.0-1"; publishing it stores "0.1.0"; publishing again answers 400
      and writes nothing. */
  lemma CreatePublishLifecycle(store: Store, body: WorkflowDefinition, repo: RepoOracle)
    requires !repo.readFails && !repo.writeFails
    ensures var c := Create(store, None, Some(body), repo);
            && c.status == 201
            && c.store[repo.assignedId] == body.(version := "0.1.0-1", id := repo.assignedId)
            && var p := Publish(c.store, repo.assignedId, repo);
            && p.status == 200
            && p.store[repo.assignedId] == body.(version := "0.1.0", id := repo.assignedId)
            && Publish(p.store, repo.assignedId, repo).status == 400
            && Publish(p.store, repo.assignedId, repo).write.None?
  {
    var id := repo.assignedId;
    CreateVersionPolicy(store, None, body, repo);
    var c := Create(store, None, Some(body), repo);
    InitialVersionStrings();
    var draft := Semver.Version(0, 1, 0, "1", "");
    assert Semver.IsIdentString("1");
    Semver.ParseRoundTrip(draft);
    assert Semver.Parse(c.store[id].version) == Ok(draft);
    PublishReleasesDraft(c.store, id, repo);
    var p := Publish(c.store, id, repo);
    Semver.ParseRoundTrip(Semver.Version(0, 1, 0, "", ""));
    assert p.store[id].version == "0.1.0";
  }
}
