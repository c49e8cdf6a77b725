# Workflow engine: a Dafny model of its decision logic

This project models the sequential decision logic of a Go workflow engine. The
repository holds several generations of the engine: the root `internal/`,
`_v1/`, `engine/`, `engine-new/` and the `agent/`. Their types do not line up,
so each generation has its own Dafny modules. Nothing is unified across
generations.

What is modelled:

- **Step graphs and parameter resolution.**
  - Step-type tags and per-type configs (`RootModels`, `EngineModels`).
  - First-step and step-by-id lookup (`RootModels`, `EngineNewModels`).
  - Resolving constant, workflow-input and step-output bindings (`RootModels.GetValue`, `V1StepInput`).
- **Step-type executors.**
  - Fork: the fan-out id lists.
  - Join: a barrier counter that consumes an explicit sequence of "step finished" notifications.
  - Wait and agent steps: their outcomes arrive as oracle inputs (`RootWorker`, `EngineTypeExecutors`, `V1AgentExecutor`).
- **Executor lifecycles.**
  - A handler call is a function from the job and an oracle to the transcript of its effects.
  - The oracle records what every service, queue and executor call answers.
  - The effects are instance updates, inserts, enqueued jobs, sent results, and `Next`/`End` calls.
  - A send on a missing channel is `Stuck`, since it blocks for ever. A nil dereference is `Crashed` (`RootWorker`, `EngineStepExecutor`).
- **Bounded queues.** A buffered channel is a capacity-bounded FIFO (`Fifo`).
  - A non-blocking enqueue fails when the FIFO is full, except that an unbuffered channel hands the item to a receiver that is already waiting.
  - A blocking enqueue requires room (`RootQueues`, `EngineStepExecutor`).
- **Registries.** All registries are maps with stated invariants:
  - the engine's two agent registries (`EngineAgentIndex`, `EngineAgentRegistry`);
  - the agent's task-definition registry (`AgentTaskRegistry`);
  - the websocket command registry (`EngineNewWs`).
- **Semantic versions** (`Semver`), following the code's regular expression rather than Semantic Versioning 2.0.0.
  - Parse, print, the bumps and releasing a draft.
  - The create-as-draft and publish version policy of the HTTP handlers (`DefinitionHandlers`).
- **Websocket scopes.** Scope matching, subscribing, broadcasting with drop-on-full, and register/unregister (`EngineWebsocket`, `EngineNewWs`).
- **Merges and utilities.**
  - Partial-update merges (`RootStepInstances`, `V1Services`, `EngineDefinitionsService`).
  - The filter-expression compiler (`Expr`).
  - Pagination defaults (`Paginate`, `Strconv`) and configuration loading (`Env`, `EngineConfig`, `AgentConfig`).
  - Host/port joining (`HostPort`), the nil-preserving JSON map wrapper (`UnknownJson`), `ToMapped` (`ArrayUtils`) and `Counter`.

Conventions:

- A Go pointer or nil slice is an `Option`.
- An `error` is an `Option<GoError>`.
- A JSON document is a parsed `Json.Value`.
- Go `int` is unbounded except in `Counter` and `Strconv.Atoi`, where the 64-bit range is explicit.
- Map iteration order is unspecified in Go. Operations that iterate a map are methods that pick keys one at a time, and their contracts hold for every order.

Four behaviours of the code are modelled as written. Each has a lemma that states it:

- The `engine` step executor sizes its queue by `MaxWorkflowQueueSize`, not by `MaxStepQueueSize` (`EngineStepExecutor.StepQueueUsesWorkflowLimit`).
- Both join barriers count a repeated notification from the same step again, so a join can release before every incoming step has finished (`RootWorker.JoinDuplicateReleases`, `EngineTypeExecutors.JoinReleasesOnDuplicate`).
- The `engine` agent step treats a reported failure like a completion (`EngineTypeExecutors.AgentIgnoresStatus`).
- The root join keeps its listener running after the barrier is released. A further notification from an incoming step then drives the WaitGroup below zero, which panics (`RootWorker.JoinListener`, `RootWorker.JoinLateNotificationPanics`).

The `StepInstance` struct of `engine/internal/models/step_instance.go:19-32` declares no `WorkflowInstanceID` field. Yet `NewInstance` sets one (`engine/internal/models/workflow_step_definition.go:101`), and the step executor reads it (`engine/internal/service/step_executor.go:167`). The model follows the code's use and keeps the field.

## Model

| member | source | states |
|---|---|---|
| Semver.Parse | utils/semver/semver.go:22-37 | Blank input is the "empty version" error. Any other input is trimmed and must match the regular expression, or the error names the trimmed text. A success is always a printable version. |
| Semver.ToString | utils/semver/semver.go:40-49 | The printed form never starts with `v` and starts with a digit for a non-negative major. |
| Semver.TrimSpace | utils/semver/semver.go:23 | The trimmed text has no white space at either end. It is empty exactly when the input is all white space, and text without surrounding space is kept as is. |
| Semver.ParseRoundTrip | utils/semver/semver.go:22-49 | Parse(String(v)) == v for every version Parse can produce. |
| Semver.PrintParseIdempotent | utils/semver/semver.go:22-49 | Printing a parsed version and parsing it again gives the same result. |
| Semver.ParseAcceptsVPrefix | utils/semver/semver.go:10 | A leading `v` is accepted and dropped, and String never puts it back. |
| Semver.ParseAcceptsLeadingZero | utils/semver/semver.go:10 | A leading zero on MAJOR is accepted and normalised away, which section 2 of Semantic Versioning 2.0.0 forbids. |
| Semver.ParseLeadingZeroExample | utils/semver/semver.go:10-33 | "01.2.3" parses to 1.2.3. |
| Semver.ParseAcceptsEmptyIdentifier | utils/semver/semver.go:10 | "1.0.0-a..b" parses, although section 9 of Semantic Versioning 2.0.0 forbids empty identifiers. |
| Semver.ParseIgnoresSurroundingSpace | utils/semver/semver.go:23 | White space around a version does not change what it parses to. |
| Semver.ParseExample | utils/semver/semver_test.go:5-16 | "v1.2.3-alpha+001" parses to 1, 2, 3, "alpha", "001" and prints back without the `v`. |
| Semver.ParseRejectsMissingPatch | utils/semver/semver.go:26-29 | A string without three dot-separated numbers is refused. |
| Semver.IncrementPatch | utils/semver/semver.go:56-60 | PATCH goes up by one, MAJOR and MINOR are kept, and pre-release and build are cleared. |
| Semver.IncrementMinor | utils/semver/semver.go:62-67 | MINOR goes up by one, PATCH becomes 0, and the suffixes are cleared. |
| Semver.IncrementMajor | utils/semver/semver.go:69-75 | MAJOR goes up by one, MINOR and PATCH become 0, and the suffixes are cleared. |
| Semver.ReleaseDraft | utils/semver/semver.go:77-79 | The result is no draft. MAJOR, MINOR, PATCH and build are kept. |
| Semver.BumpsAdvance | utils/semver/semver.go:56-79 | Each increment moves the version strictly forward and keeps it printable. Releasing a draft keeps MAJOR.MINOR.PATCH. |
| Semver.InitialVersionParses | utils/semver/semver.go:82-84 | The initial version parses to 0.1.0, which is no draft. |
| Semver.DecimalRoundTrip | utils/semver/semver.go:30-32 | The decimal value of the digits `%d` prints for n is n. |
| Semver.LeadingZeroIgnored | utils/semver/semver.go:30-32 | A leading zero does not change the value of a run of digits. |
| DefinitionHandlers.ParseBool | engine/internal/httpserver/workflow_definitions_handlers.go:144-151 | Exactly the spellings `strconv.ParseBool` accepts give true or false. Any other text, including the empty one, is a syntax error. |
| DefinitionHandlers.DraftFlag | engine/internal/httpserver/workflow_definitions_handlers.go:144-151 | An absent or empty `draft` parameter takes the tag's default and gives true, as do the true spellings. Only the false spellings give false. Any other text fails to bind. |
| DefinitionHandlers.GetByID | engine/internal/httpserver/workflow_definitions_handlers.go:116-128 | A read error answers 500 and an unknown id answers 404. Otherwise the answer is 200 with the stored definition. Nothing is written. |
| DefinitionHandlers.CreateThenGet | engine/internal/httpserver/workflow_definitions_handlers.go:116-177 | A created definition is found again under its assigned id, with the initial version (a draft unless draft=false) and the client's other fields. |
| DefinitionHandlers.Create | engine/internal/httpserver/workflow_definitions_handlers.go:143-177 | Bad query or body answers 400 with no write. Otherwise exactly one create is sent, with the client's version replaced by the initial version (made a draft when asked). The answer is 201 exactly when that write succeeds. |
| DefinitionHandlers.CreateVersionPolicy | engine/internal/httpserver/workflow_definitions_handlers.go:159-169 | Without a `draft` parameter the stored version is "0.1.0-1". With draft=false it is "0.1.0". |
| DefinitionHandlers.CreatedVersionValues | engine/internal/httpserver/workflow_definitions_handlers.go:159-169 | Both created versions parse back, and only the draft one is a draft. |
| DefinitionHandlers.Update | engine/internal/httpserver/workflow_definitions_handlers.go:192-214 | A bad body or a non-UUID id answers 400 with no repository call. Otherwise the definition is written with its id forced to the path id, and the answer is 200 exactly when the write succeeds. |
| DefinitionHandlers.UpdateThenGet | engine/internal/httpserver/workflow_definitions_handlers.go:116-214 | After a successful update, `GetByID` answers 200 with the body under the path id. Other ids answer as before. |
| DefinitionHandlers.Publish | engine/internal/httpserver/workflow_definitions_handlers.go:250-279 | A missing definition, a failed read or an unparsable version answers 500 with no write. A version that is no draft answers 400 with no write. Otherwise the draft is written, and nothing else changes the store. |
| DefinitionHandlers.PublishReleasesDraft | engine/internal/httpserver/workflow_definitions_handlers.go:264-272 | Publishing a draft stores the version with the pre-release removed and the build kept, and no other field changes. |
| DefinitionHandlers.CreatePublishLifecycle | engine/internal/httpserver/workflow_definitions_handlers.go:143-279 | A definition created without a draft flag publishes to "0.1.0". Publishing it again answers 400. |
| RootModels.ConfigOf | internal/models/workflow_step.go:126-137 | The selected config always carries the step's own type tag, and an unknown tag selects none. |
| RootModels.WellFormedCarriesConfig | internal/models/workflow_step.go:126-137 | For a known type, the step passes its validation tags exactly when it carries that type's config. |
| RootModels.StepTypesDistinct | internal/models/workflow_step.go:11-21 | The nine step-type tags are pairwise distinct. |
| RootModels.GetValue | internal/models/workflow_step.go:156-163 | An input binding reads its key from the input, a value binding yields its value, and anything else yields nil. |
| RootModels.GetValueOfWellFormed | internal/models/workflow_step.go:39-43 | A valid value binding is never nil. An input binding is nil exactly when its key is missing or null. |
| RootModels.GetStepById | internal/models/workflow_definition.go:26-33 | The result has the requested id and is one of the steps. It is nil exactly when no step has that id. |
| RootModels.GetStepByIdIsFirst | internal/models/workflow_definition.go:26-33 | Among steps sharing an id, the earliest is returned. |
| EngineModels.StepTypesDistinct | engine/internal/models/workflow_step_definition.go:13-20 | The six step-type tags are pairwise distinct. |
| EngineModels.NewInstance | engine/internal/models/workflow_step_definition.go:92-106 | The new instance is Pending and takes its step id from the definition's Name. It carries the given ids, the given input and a fresh id, with no output and no error. |
| EngineModels.NewInstanceIgnoresDefinitionId | engine/internal/models/workflow_step_definition.go:92-106 | Two definitions differing only in StepDefinitionID give the same instance. |
| EngineNewModels.GetFirstStep | engine-new/internal/models/workflow_definition.go:24-29 | Nil or empty steps give the no-steps error, and only they do. Otherwise the result is the step at index 0. |
| EngineNewModels.GetStepByID | engine-new/internal/models/workflow_definition.go:31-41 | The result has the requested id and is one of the steps. It is absent exactly when no step has that id, and always absent for nil steps. |
| EngineNewModels.GetStepByIDIsFirst | engine-new/internal/models/workflow_definition.go:31-41 | A step with the id is always found, and it is the earliest such step. |
| EngineNewModels.FirstStepFoundById | engine-new/internal/models/workflow_definition.go:24-41 | The first step is found again by its own id. |
| V1StepInput.GetValue | _v1/internal/models/workflow_step_input.go:54-79 | A constant yields its value. A workflow input or step output yields the key of the decoded document. Anything else is nil. |
| V1StepInput.GetValueMap | _v1/internal/models/workflow_step_input.go:46-52 | Every binding is resolved under its own key, and no other key appears. |
| V1StepInput.ConstantIsContextFree | _v1/internal/models/workflow_step_input.go:54-79 | A constant binding does not depend on step outputs or workflow input. |
| V1StepInput.NoStepOutputs | _v1/internal/models/workflow_step_input.go:46-79 | Resolved with no step outputs, step-output bindings are nil and the others resolve as usual. |
| V1StepInput.GetValueMapUpdate | _v1/internal/models/workflow_step_input.go:46-52 | Adding a binding adds exactly its resolved value. |
| Fifo.TryPush | internal/queue/memory_queue.go:20-27 | A non-blocking send succeeds exactly when there is room, or when the channel is unbuffered and a receiver is waiting. With room the item is appended. A hand-off leaves the buffer as it was. |
| Fifo.TryPushDelivers | internal/queue/memory_queue.go:20-27 | After an accepted send, receivers get the handed-off item if there was one, then the buffer. Either way that is the earlier contents followed by the item sent. |
| Fifo.UnbufferedSend | internal/queue/memory_queue.go:20-27 | On an unbuffered channel a non-blocking send succeeds exactly when a receiver is waiting, and nothing is buffered. |
| Fifo.Pop | internal/queue/memory_queue.go:29-31 | A receive yields the oldest item, or nothing when the buffer is empty. |
| Fifo.PushAllAppends | internal/queue/memory_step_queue.go:11-14 | Blocking sends with room append their items in order. |
| Fifo.Push | internal/queue/memory_step_queue.go:11-14 | A blocking send on a channel with room appends the item, keeps the capacity and never overfills the buffer. |
| Fifo.Drain | internal/queue/memory_step_queue.go:16-18 | Receiving until empty yields exactly the buffered items, oldest first. |
| Fifo.FifoOrder | internal/queue/memory_step_queue.go:11-18 | A receiver gets what was queued, then what was sent, in sending order. |
| Fifo.TryPushAllAcceptsPrefix | internal/queue/memory_queue.go:20-27 | Without receives in between, sends on a buffered channel succeed exactly for the first free-slot-many items. The rest fail and leave the queue unchanged. On an unbuffered channel a send succeeds exactly when a receiver waits for it, and nothing is buffered. |
| RootQueues.NewMemoryQueue | internal/queue/memory_queue.go:13-18 | A new queue is empty and buffered as asked. |
| RootQueues.MemoryEnqueue | internal/queue/memory_queue.go:20-27 | Enqueue succeeds exactly when the buffer has room, or when the buffer is zero and a reader is waiting. A buffered job is appended, and a handed-off one leaves the queue as it was. Otherwise the "queue is full" error names the buffer and the queue is unchanged. |
| RootQueues.MemoryDequeue | internal/queue/memory_queue.go:29-31 | Dequeue yields the oldest job. |
| RootQueues.MemoryEnqueueAllBounded | internal/queue/memory_queue.go:20-27 | However many jobs are enqueued, the queue never holds more than its buffer. |
| RootQueues.TaskEnqueue | internal/agent/queue.go:15-22 | Enqueue succeeds exactly when there is room, or when the buffer is zero and a worker is waiting. Otherwise it returns the task-queue-full error and leaves the queue unchanged. |
| RootQueues.TaskDequeue | internal/agent/queue.go:24-26 | Dequeue yields the oldest task. |
| RootQueues.TaskQueueFifo | internal/agent/queue.go:15-26 | Tasks come out in the order they went in. |
| RootQueues.BlockingEnqueue | internal/queue/memory_workflow_queue.go:11-14 | A blocking send on a queue with room appends the job and returns nil. |
| RootQueues.BlockingDequeue | internal/queue/memory_step_queue.go:16-18 | A receive yields the oldest job and frees a slot. |
| RootQueues.BlockingQueueFifo | internal/queue/memory_step_queue.go:11-18 | Jobs are received in sending order. |
| RootStepInstances.UpdatePartial | internal/services/step_instances_service.go:44-60 | Each provided field overwrites the stored one, and every other field is kept. |
| RootStepInstances.UpdatePartialIdentity | internal/services/step_instances_service.go:44-60 | An empty request changes nothing. |
| RootStepInstances.UpdatePartialIdempotent | internal/services/step_instances_service.go:44-60 | Applying a request twice equals applying it once. |
| RootStepInstances.NoTransitionCheck | internal/services/step_instances_service.go:44-60 | Any status may replace any other. |
| RootStepInstances.CreateStepInstance | internal/services/step_instances_service.go:23-29 | A failed insert returns its error and stores nothing. Otherwise the instance is stored and returned with the assigned id. |
| RootStepInstances.UpdateStepInstance | internal/services/step_instances_service.go:31-42 | A failed or missing lookup returns its error and writes nothing. Otherwise the merged row is written back, and the call succeeds exactly when that write does. |
| RootStepInstances.UpdateStepInstanceFrame | internal/services/step_instances_service.go:31-42 | A successful update touches only its own row, and repeating it changes nothing more. |
| RootStepInstances.CreateThenUpdate | internal/services/step_instances_service.go:23-60 | Updating an instance just created, under the id the insert assigned, succeeds with the created instance merged with the request. Every other row is unchanged. |
| RootWorkflowService.StartWorkflow | internal/services/workflow_service.go:36-75 | A read error, an unknown definition or a failed insert returns the nil UUID with an error and stores nothing. Otherwise exactly one Pending instance of that definition is stored, and its id is returned. |
| RootWorker.ForkExecute | internal/worker/fork_step_executor.go:15-33 | The join step id comes first, even if empty, then the non-empty branch targets in branch order. There is no output and never an error. |
| RootWorker.BranchTargetsAppend | internal/worker/fork_step_executor.go:20-25 | Branch targets respect concatenation, so their order is the branch order. |
| RootWorker.ForkOneBranch | internal/worker/fork_step_executor.go:21-24 | A branch contributes its target exactly when the target is non-empty. |
| RootWorker.BranchTargetsFromBranches | internal/worker/fork_step_executor.go:18-25 | Every emitted id is the join id or some branch's target. |
| RootWorker.MemberCountMonotone | internal/worker/join_step_executor.go:23-31 | The count of member notifications never falls as more arrive. |
| RootWorker.JoinBarrier | internal/worker/join_step_executor.go:20-34 | The barrier releases exactly when member notifications reach the number of incoming ids. It releases on the first notification that gets there. A sequence that never gets there consumes everything and stays blocked. |
| RootWorker.JoinExecute | internal/worker/join_step_executor.go:17-46 | The join returns only once released. It has no output and yields the optional next step. |
| RootWorker.JoinListener | internal/worker/join_step_executor.go:20-31 | The listener keeps counting after the release. It is still waiting exactly when member notifications have not exceeded the incoming ids, with the difference left to count. Otherwise it panics on a member notification that arrives once all were counted. |
| RootWorker.JoinListenerPanics | internal/worker/join_step_executor.go:23-31 | The listener panics exactly when some member notification arrives after the count already reached the number of incoming ids. |
| RootWorker.JoinLateNotificationPanics | internal/worker/join_step_executor.go:23-31 | With incoming steps "a" and "b", the notifications "a", "a", "b" release the join on the second "a" and panic on "b". |
| RootWorker.JoinDuplicateReleases | internal/worker/join_step_executor.go:25-29 | A repeated notification releases a two-way join although the second step never finished. |
| RootWorker.WaitExecute | internal/worker/wait_step_executor.go:17-45 | A non-string duration is the "invalid duration value" error, and a parse error is returned. Otherwise the optional next step is returned. |
| RootWorker.WaitInHandler | internal/worker/wait_step_executor.go:17-45 | Run by the step handler, a wait with a non-string duration sends one Failed result joining "invalid duration value" with "step execution failed". A valid duration on a last step records Running, then Completed, and sends one Completed result. |
| RootWorker.StepFail | internal/worker/step_executor.go:66-80 | The failure path ends by sending one Failed result whose error joins the cause with "step execution failed". |
| RootWorker.Successors | internal/worker/step_executor.go:145-194 | No ids means no effect. Otherwise the loop has at least one effect and at most two per remaining id. |
| RootWorker.StepHandle | internal/worker/step_executor.go:103-195 | A run always has an effect. It is exactly the one Failed result with a nil error when the step type is unregistered. |
| RootWorker.SuccessorsSend | internal/worker/step_executor.go:145-194 | The successor loop sends at most one result, as its last effect, on the job's channel. It sends nothing exactly when every successor is found, inserted and enqueued. |
| RootWorker.SuccessorsNoUpdates | internal/worker/step_executor.go:145-194 | The successor loop never updates an instance. |
| RootWorker.SuccessorsJobs | internal/worker/step_executor.go:156-185 | Every enqueued job continues the same workflow on the same channel. Its step is one of the successor ids, and its input comes from the workflow input alone. |
| RootWorker.HandleUnknownType | internal/worker/step_executor.go:104-112 | An unregistered step type sends one Failed result with a nil error and never updates the instance. |
| RootWorker.HandleFailure | internal/worker/step_executor.go:114-133 | A failure to mark Running, an executor error or nil result, or a failure to mark Completed ends with one Failed result. No successor is created. |
| RootWorker.HandleRunningBeforeCompleted | internal/worker/step_executor.go:82-101 | Running, with its start time, is the first update. Completed, with the output, can only be the second. |
| RootWorker.HandleLastStep | internal/worker/step_executor.go:135-142 | Without next ids the handler records Running and then Completed, sends one Completed result and creates nothing. |
| RootWorker.HandleReachesLoop | internal/worker/step_executor.go:114-145 | A handler reaching a non-empty successor loop records Running and Completed, then runs the loop. |
| RootWorker.HandleStopsEarly | internal/worker/step_executor.go:103-142 | Every other handler run ends with exactly one result and enqueues nothing. |
| RootWorker.HandleSendsAtMostOnce | internal/worker/step_executor.go:103-195 | At most one result is sent, always last and on the job's channel. |
| RootWorker.HandleEnqueuesSuccessors | internal/worker/step_executor.go:145-194 | Only a run that reaches the successor loop enqueues, and each job is for one of the executor's next ids. |
| RootWorker.UnknownSuccessorStops | internal/worker/step_executor.go:146-154 | An unknown successor id sends one Failed result with a nil error, and later ids are skipped. |
| RootWorker.HandleFork | internal/worker/step_executor.go:145-194 | With the fork executor, the handler creates the join step first, then each non-empty branch target. |
| RootWorker.WorkflowFail | internal/worker/workflow_executor.go:59-76 | The instance is set Failed with a completion time, kept only if the update succeeds. |
| RootWorker.WorkflowHandle | internal/worker/workflow_executor.go:78-163 | A workflow run has at most four effects. It never sends a result and never updates a step instance. |
| RootWorker.WorkflowDefinitionFailure | internal/worker/workflow_executor.go:79-84 | A definition that cannot be loaded sets the instance Failed, and the instance is never marked Running. |
| RootWorker.WorkflowRunningFirst | internal/worker/workflow_executor.go:86-101 | When a run creates a step instance, that insert is its second effect, right after Running with its start time. The instance is a Pending instance of the first step, with inputs resolved from the workflow input. |
| RootWorker.WorkflowLateFailure | internal/worker/workflow_executor.go:103-141 | A later failure (no first step, insert or enqueue) ends with the Failed update only, and only if that update succeeds. |
| RootWorker.WorkflowFinalStatus | internal/worker/workflow_executor.go:128-163 | After enqueueing the first step, the run waits on that job's channel for one result and records the result's status with the completion time. If that update fails, the run ends after the enqueue and records no completion. |
| RootWorker.StartThenHandle | internal/worker/workflow_executor.go:78-101 | A workflow instance that `StartWorkflow` stored is marked Running first. Then a Pending instance of the first step is created for it, with the first step's input resolved against the workflow input. |
| V1AgentExecutor.AgentExecute | _v1/internal/worker/agent_step_executor.go:31-75 | Conversion and start errors are returned at once. Otherwise results for other executions are skipped. The first matching completion returns its output with the next step, a failure returns its error, and any other result type returns no output with the next step. Without a match the executor waits for ever. |
| V1AgentExecutor.ForeignResultsDiscarded | _v1/internal/worker/agent_step_executor.go:50-72 | Results for other executions before the matching one change only how many are consumed. |
| EngineTypeExecutors.ForkExecute | engine/internal/service/fork_step_executor.go:13-25 | One next id per branch in branch order, empty ones kept, and no join id. |
| EngineTypeExecutors.ForkKeepsEmptyTargets | engine/internal/service/fork_step_executor.go:13-25 | A branch without a target still yields an empty next id. |
| EngineTypeExecutors.Contains | engine/internal/service/join_step_executor.go:49-56 | The scan answers true exactly when the item occurs in the slice. |
| EngineTypeExecutors.JoinExecute | engine/internal/service/join_step_executor.go:14-47 | The join releases exactly when member notifications reach the number of incoming ids, on the first one that gets there. With no incoming ids it returns at once, while its listener still reads one notification. |
| EngineTypeExecutors.MembersMonotone | engine/internal/service/join_step_executor.go:24-35 | Counting over a longer prefix never gives fewer. |
| EngineTypeExecutors.JoinReleasesOnDuplicate | engine/internal/service/join_step_executor.go:27-33 | Two notifications from the same step release a two-way join. |
| EngineTypeExecutors.WaitExecute | engine/internal/service/wait_step_executor.go:11-23 | The wait returns its optional next step and never reads the configured duration. |
| EngineTypeExecutors.WaitIgnoresDuration | engine/internal/service/wait_step_executor.go:11-23 | Changing the configured duration changes nothing. |
| EngineTypeExecutors.AgentExecute | engine/internal/service/agent_step_executor.go:27-71 | No agent for the task is an error. Conversion and start errors are returned as is. Otherwise the step awaits its task's notification, removes the per-task entry and returns the output, never nil. |
| EngineTypeExecutors.AgentDispatchErrors | engine/internal/service/agent_step_executor.go:35-50 | Conversion and start errors are returned unchanged, with nothing awaited. |
| EngineTypeExecutors.AgentIgnoresStatus | engine/internal/service/agent_step_executor.go:55-71 | A failed task returns the same success as a completed one. |
| EngineTypeExecutors.AgentTaskEntryLifetime | engine/internal/service/agent_step_executor.go:52-66 | The per-task channel entry exists exactly while the step waits. |
| EngineStepExecutor.NewStepExecutor | engine/internal/service/step_executor.go:44-60 | A new executor has no type executors and an empty queue sized by the workflow-queue limit. |
| EngineStepExecutor.RegisterTypeExecutor | engine/internal/service/step_executor.go:62-64 | The executor replaces any earlier one for its type, and the other types are kept. |
| EngineStepExecutor.GetTypeExecutor | engine/internal/service/step_executor.go:66-69 | The lookup answers the registered executor exactly when one exists. |
| EngineStepExecutor.RegisterThenGet | engine/internal/service/step_executor.go:62-69 | The last registration for a type wins, and other types are unaffected. |
| EngineStepExecutor.EnqueueStep | engine/internal/service/step_executor.go:71-78 | The execution is appended when there is room, or handed to a waiting `Start` on an unbuffered queue. Otherwise the workflow-queue-full error is returned and the queue stays unchanged. |
| EngineStepExecutor.StepQueueUsesWorkflowLimit | engine/internal/service/step_executor.go:57 | However large the step-queue limit, a fresh executor rejects a step once the workflow-queue limit's worth is queued. The one exception is a limit of zero with `Start` waiting, which takes the step directly. |
| EngineStepExecutor.NextLoop | engine/internal/service/step_executor.go:175-187 | The loop never calls `End` and never crashes. It blocks exactly when the workflow has no result channel and some `Next` call fails. |
| EngineStepExecutor.StartStep | engine/internal/service/step_executor.go:138-188 | `startStep` crashes exactly when the instance is found, the type has an executor and `Execute` returns a nil result without error. |
| EngineStepExecutor.NextLoopCallsEveryId | engine/internal/service/step_executor.go:175-187 | With the channel present, the loop calls `Next` once per id in order and sends one failure per failing call. It never blocks and never calls `End`. |
| EngineStepExecutor.StartStepEarlyFailure | engine/internal/service/step_executor.go:139-151 | A missing step instance, or a type without executor, sends the failure and sets the step FAILED. `End` is not called. |
| EngineStepExecutor.StartStepExecuteError | engine/internal/service/step_executor.go:154-162 | After an `Execute` error the step is set RUNNING, then the failure naming the error is sent, the step is set FAILED and `End` is called. |
| EngineStepExecutor.StartStepEndsOnce | engine/internal/service/step_executor.go:156-188 | Once `Execute` has run, `End` is called exactly once, last apart from a crash, unless a send blocked for ever. |
| EngineStepExecutor.StartStepSuccessUpdates | engine/internal/service/step_executor.go:154-173 | After a successful `Execute` the step goes RUNNING, then COMPLETED with its output. The output is published under the step's name when the workflow has an output channel. |
| EngineStepExecutor.StartStepSuccessCalls | engine/internal/service/step_executor.go:175-187 | Every next id is passed to `Next` in order, and only failing calls send a result. |
| EngineStepExecutor.StartStepWithoutSuccessors | engine/internal/service/step_executor.go:175 | Nil or empty next ids mean no `Next` call and no result sent. |
| EngineStepExecutor.NewWorkflowExecutor | engine/internal/service/workflow_executor.go:24-34 | A new executor has an empty queue sized by the workflow-queue limit. |
| EngineStepExecutor.EnqueueWorkflow | engine/internal/service/workflow_executor.go:36-43 | The execution is appended when there is room, or handed to a waiting `Start` on an unbuffered queue. Otherwise the workflow-queue-full error is returned and the queue stays unchanged. |
| EngineStepExecutor.FailWorkflowInstance | engine/internal/service/workflow_executor.go:60-70 | The instance is set FAILED with the message. |
| EngineStepExecutor.StartWorkflow | engine/internal/service/workflow_executor.go:72-82 | A failed lookup fails the instance with "Failed to retrieve workflow instance". A successful one issues no update. |
| EngineStepExecutor.EnqueueThenStart | engine/internal/service/workflow_executor.go:36-82 | An accepted execution is the next one `Start` receives after those already queued, whether buffered or handed off. Starting it fails that same instance exactly when its lookup fails. |
| EngineAgentIndex.NewAgentRegistry | engine/internal/registry/agent_registry.go:28-35 | A new registry is empty and consistent. |
| EngineAgentIndex.IndexTasks | engine/internal/registry/agent_registry.go:52-57 | Every supported task id becomes indexed and mapped to the agent, with the last definition listed for it. Task ids outside the list keep their definition and their agent. |
| EngineAgentIndex.RegisterAgent | engine/internal/registry/agent_registry.go:37-60 | A failing connector creation or ping returns its error and changes nothing. Otherwise the agent and its connector are stored under its name, and each task id holds the last definition listed for it. |
| EngineAgentIndex.RegisterThenLookup | engine/internal/registry/agent_registry.go:37-65 | After a successful registration `GetAgent` finds the agent under its name, other names answer as before, and each supported task id is indexed to that name with the last definition listed for it. |
| EngineAgentIndex.RegisterAgentValid | engine/internal/registry/agent_registry.go:37-60 | Registering keeps the indexes in agreement. |
| EngineAgentIndex.GetAgent | engine/internal/registry/agent_registry.go:62-65 | The lookup answers the agent and true for a known name, and the zero value and false otherwise. |
| EngineAgentIndex.UnregisterAgent | engine/internal/registry/agent_registry.go:72-81 | The agent, its connector and exactly the task ids mapped to it are removed. |
| EngineAgentIndex.UnregisterAgentValid | engine/internal/registry/agent_registry.go:72-81 | Unregistering keeps the indexes in agreement. |
| EngineAgentIndex.ReRegisterKeepsOldTasks | engine/internal/registry/agent_registry.go:37-60 | Re-registering a name with fewer tasks keeps its old task ids mapped to it. |
| EngineAgentIndex.RegisterUnregister | engine/internal/registry/agent_registry.go:37-81 | Registering then unregistering an agent whose tasks nobody else registered restores the registry. |
| EngineAgentIndex.ListAgents | engine/internal/registry/agent_registry.go:83-89 | The list holds one entry per registered agent, each the stored agent. |
| EngineAgentRegistry.StoreTasks | engine/internal/agent_registry.go:49-53 | Every supported id holds the last definition listed for it. Ids outside the list keep their stored definition. |
| EngineAgentRegistry.RegisterAgent | engine/internal/agent_registry.go:36-56 | A failing connector creation or ping returns its error and changes nothing. Otherwise the agent and its connector are stored, each supported id holds the last definition listed for it, and every other definition is kept. |
| EngineAgentRegistry.UnregisterAgent | engine/internal/agent_registry.go:68-70 | Only the agent entry goes. Its connector and task definitions stay. |
| EngineAgentRegistry.GetAgentByTaskName | engine/internal/agent_registry.go:101-110 | The lookup finds an agent that lists the task id exactly when one exists. |
| EngineAgentRegistry.ResponseOf | engine/internal/agent_registry.go:136-148 | The response copies id, name and description, and a nil schema becomes an empty map. |
| EngineAgentRegistry.GetTaskDefinition | engine/internal/agent_registry.go:96-99 | The lookup answers the stored definition's response exactly for a known id. |
| EngineAgentRegistry.RegisterThenGetTaskDefinition | engine/internal/agent_registry.go:36-99 | After a successful registration, `GetTaskDefinition` answers the response of the last definition listed for each supported id. Every other id answers as before. |
| EngineAgentRegistry.UnregisterKeepsDefinitions | engine/internal/agent_registry.go:68-99 | After unregistering, the agent is gone but its task definitions are still found. |
| EngineAgentRegistry.ListAgentNames | engine/internal/agent_registry.go:80-86 | Every registered name is listed exactly once. |
| EngineAgentRegistry.ToResponse | engine/internal/agent_registry.go:112-126 | The response carries the scalar fields and the supported task ids in their original order. |
| EngineAgentRegistry.ToResponseListsSupported | engine/internal/agent_registry.go:101-126 | A task id is in the response exactly when the agent supports it. |
| AgentTaskRegistry.NewRegistry | agent/internal/registry/task_definition_registry.go:17-21 | A new registry is empty. |
| AgentTaskRegistry.Register | agent/internal/registry/task_definition_registry.go:23-25 | The definition is stored under its id, replacing any earlier one, and the other ids are kept. |
| AgentTaskRegistry.Get | agent/internal/registry/task_definition_registry.go:27-30 | The lookup answers the stored definition and true, or the zero value and false. |
| AgentTaskRegistry.RegisterThenGet | agent/internal/task_definition_registry.go:32-39 | The last registration of an id is found, and other ids are unaffected. |
| AgentTaskRegistry.List | agent/internal/registry/task_definition_registry.go:32-38 | The list holds each registered definition exactly once. |
| AgentTaskRegistry.SchemaToProto | agent/internal/registry/task_definition_registry.go:55-80 | A nil schema stays nil. Otherwise the conversion's result is used, nil when it fails. |
| AgentTaskRegistry.ToProto | agent/internal/task_definition_registry.go:49-62 | There is one protobuf definition per registered definition, copying id, name and description. |
| EngineWebsocket.NewClient | engine/internal/websocket.go:37-45 | A new client has no scopes and an empty 256-slot buffer. |
| EngineWebsocket.IsInScope | engine/internal/websocket.go:214-236 | The scan answers true exactly when the message has no scope, or its type is followed and, if it names an id, that id is listed. |
| EngineWebsocket.BuildScopes | engine/internal/websocket.go:119-131 | Every type listed in a subscribe gets an entry, even one listed without an id. |
| EngineWebsocket.BuildScopesContents | engine/internal/websocket.go:119-131 | A subscribe builds exactly the listed types, each with the ids listed for it, in order. |
| EngineWebsocket.SubscribedMatches | engine/internal/websocket.go:112-131 | After a subscribe, a message matches exactly by the listed scopes, and earlier subscriptions play no part. |
| EngineWebsocket.HandleCommand | engine/internal/websocket.go:112-136 | A subscribe from a known client replaces its scopes. Anything else changes nothing. |
| EngineWebsocket.Broadcast | engine/internal/websocket.go:95-110 | In-scope clients with room get the message appended, and in-scope clients with full buffers are removed and closed. Out-of-scope clients are untouched. |
| EngineWebsocket.BroadcastDelivers | engine/internal/websocket.go:95-110 | A client with room that the message is for receives it last. |
| EngineWebsocket.Register | engine/internal/websocket.go:60-69 | Exactly the clients with room stay, the new one included. Each gets REGISTERED appended after what it already had, and nothing else about it changes. The clients with full buffers are closed. |
| EngineWebsocket.RegisterGreetsNewClient | engine/internal/websocket.go:60-69 | A fresh client receives its own REGISTERED message as its first message. |
| EngineWebsocket.Unregister | engine/internal/websocket.go:70-74 | A known client is removed and its channel closed. An unknown id changes nothing. |
| EngineNewWs.NewConnection | engine-new/internal/ws/connection.go:32-44 | A new connection is subscribed to nothing and has an empty 256-slot buffer. |
| EngineNewWs.ResetScopes | engine-new/internal/ws/connection.go:71-73 | Every subscription is forgotten, and nothing else changes. |
| EngineNewWs.AddScope | engine-new/internal/ws/connection.go:75-86 | The connection is subscribed afterwards exactly to what it was before, plus the type and, if given, that id. |
| EngineNewWs.IsSubscribedTo | engine-new/internal/ws/connection.go:88-108 | The scan answers true exactly when the type is followed and, if an id is asked about, that id is listed. |
| EngineNewWs.SubscribedSinceReset | engine-new/internal/ws/connection.go:71-86 | From a new connection, a scope is subscribed exactly when some add since the last reset covers it. |
| EngineNewWs.ReplayAfterReset | engine-new/internal/ws/connection.go:71-73 | A reset wipes out all earlier changes. |
| EngineNewWs.HandleSubscribe | engine-new/internal/ws/handler_subscribe_command.go:17-29 | The handler never fails. Without a subscribe body the connection is unchanged. Otherwise it resets and then adds each scope in order. |
| EngineNewWs.SubscribeReplaces | engine-new/internal/ws/handler_subscribe_command.go:17-29 | After a subscribe, a scope is followed exactly when the command lists it. |
| EngineNewWs.RegisterCommand | engine-new/internal/ws/registry.go:25-29 | The handler is stored, replacing any earlier one for that type, and the other types are kept. |
| EngineNewWs.GetCommandHandler | engine-new/internal/ws/registry.go:31-36 | The lookup answers the handler exactly when one is registered. |
| EngineNewWs.DispatchCommand | engine-new/internal/ws/connection.go:136-146 | A command without body is ignored, and one without handler is unhandled. Otherwise it goes to the registered handler. |
| EngineNewWs.LastRegistrationWins | engine-new/internal/ws/registry.go:25-36 | A command goes to the handler registered last for its type. |
| EngineNewWs.SendMessage | engine-new/internal/ws/connection.go:62-69 | A live connection blocks exactly when its buffer is full. A cancelled connection fails with "context canceled", unless it has room and the select picks the send. A sent message is appended to the buffer. |
| V1Services.UpdateCall | _v1/internal/services/workflow_definitions_service.go:56-63 | A lookup error is returned as is with no write. Otherwise the changed row is written once and returned with the write's error. |
| V1Services.GetAllInstances | _v1/internal/services/workflow_instances_service.go:26-38 | A repository error is returned as is. Otherwise every row is copied, in order. |
| V1Services.CreateInstance | _v1/internal/services/workflow_instances_service.go:44-55 | The new instance is pending with the request's definition and input, metadata "{}" unless given, and an empty output. It is written once. |
| V1Services.MergeInstance | _v1/internal/services/workflow_instances_service.go:70-80 | Output, metadata and status are overwritten when provided, and nothing else changes. |
| V1Services.MergeInstanceLaws | _v1/internal/services/workflow_instances_service.go:70-80 | The instance merge is the identity on an empty request and idempotent, and two merges equal one merge of the combined request. |
| V1Services.UpdateInstance | _v1/internal/services/workflow_instances_service.go:57-64 | The row found is merged and written back, and a lookup error is returned. |
| V1Services.EmptyUpdateRewrites | _v1/internal/services/workflow_instances_service.go:57-64 | An empty request writes back the row it found, unchanged. |
| V1Services.CreateDefinition | _v1/internal/services/workflow_definitions_service.go:42-54 | The request's fields are copied verbatim and written once. |
| V1Services.MergeDefinition | _v1/internal/services/workflow_definitions_service.go:87-109 | Each of the seven fields is overwritten when provided. The id and the name never change. |
| V1Services.MergeDefinitionLaws | _v1/internal/services/workflow_definitions_service.go:87-109 | The definition merge is the identity on an empty request and idempotent, and it composes. |
| V1Services.UpdateDefinition | _v1/internal/services/workflow_definitions_service.go:56-63 | The row found is merged and written back. |
| V1Services.SetEnabled | _v1/internal/services/workflow_definitions_service.go:69-85 | Enable and disable write the found definition with only its enabled flag set. |
| V1Services.SetEnabledIsPartialUpdate | _v1/internal/services/workflow_definitions_service.go:69-109 | Enabling or disabling is the partial update carrying only the flag, and the last of the two decides. |
| EngineDefinitionsService.ApplyUpdate | engine/internal/models/update_workflow_def_request.go:9-20 | Name, description and steps are overwritten exactly when provided, and everything else is kept. |
| EngineDefinitionsService.ApplyUpdateLaws | engine/internal/contracts/update_workflow_def_request.go:11-22 | The update is the identity on an empty request and idempotent, and it composes. |
| EngineDefinitionsService.ApplyUpdateChangesOnlyProvided | engine/internal/contracts/update_workflow_def_request.go:11-22 | A field changes only when the request provides it. |
| EngineDefinitionsService.Modify | engine/internal/service/workflow_definitions_service.go:41-66 | A lookup error is returned unchanged. A nil definition is dereferenced and panics. Otherwise the changed definition is saved. |
| EngineDefinitionsService.Enable | engine/internal/service/workflow_definitions_service.go:41-48 | The found definition is saved with the enabled flag set. |
| EngineDefinitionsService.Disable | engine/internal/service/workflow_definitions_service.go:50-57 | The found definition is saved with the enabled flag cleared. |
| EngineDefinitionsService.Publish | engine/internal/service/workflow_definitions_service.go:59-66 | The found definition is saved with the draft flag cleared and the version untouched. |
| EngineDefinitionsService.ModifyIdempotent | engine/internal/service/workflow_definitions_service.go:41-66 | Repeating an operation saves the same definition. The last of enable and disable wins, and publishing keeps the version. |
| Expr.NewEmptyExpression | utils/expr/expression.go:20-22 | The empty expression is empty. |
| Expr.NewAndExpression | utils/expr/expression.go:24-28 | A conjunction has only its And part and is not empty. |
| Expr.NewOrExpression | utils/expr/expression.go:30-34 | A disjunction has only its Or part and is not empty. |
| Expr.NewNotExpression | utils/expr/expression.go:36-40 | A negation has only its Not part and is not empty. |
| Expr.EmptyConjunctionIsNotEmpty | utils/expr/expression.go:16-28 | An empty conjunction is not an empty expression. |
| Expr.NegateOp | utils/expr/compare_expression.go:24-71 | Every SQL operator differs from its complement. |
| Expr.NegateInvolution | utils/expr/compare_expression.go:24-71 | Negating an operator twice gives it back. |
| Expr.CompareToGorm | utils/expr/compare_expression.go:24-71 | A known operator emits exactly one clause on the column, negated when asked. An unknown operator emits nothing. |
| Expr.NegatedClauseComplements | utils/expr/compare_expression.go:24-71 | A negated clause holds exactly when the clause does not. |
| Expr.FirstPartDecides | utils/expr/expression.go:52-70 | Only the first present part is compiled. |
| Expr.ToGormBasics | utils/expr/expression.go:52-70 | An empty expression adds nothing, and a double negation is no negation. |
| Expr.ToGorm | utils/expr/expression.go:52-70 | An empty expression adds no clause, and a disjunction adds exactly one `Or` group. |
| Expr.NegationFlipsLeaves | utils/expr/expression.go:52-70 | The negation flag reaches only the comparisons. Compiling with it flipped negates every emitted operator but keeps each conjunction a chain of `Where`s and each disjunction an `Or` group. |
| Expr.NegatedComparison | utils/expr/expression.go:64-67 | A negated comparison compiles to the complement of its clause. |
| Expr.AndConcatenates | utils/expr/expression.go:53-56 | A conjunction of two lists compiles to the first list's clauses, then the second's. |
| Expr.AndSnoc | utils/expr/expression.go:53-56 | Appending a child appends its clauses. |
| Expr.ChildrenWellFormedAll | utils/expr/expression.go:53-63 | A conjunction is well formed exactly when each child is. |
| Expr.AsWrittenSoundOnSafe | utils/expr/expression.go:52-70 | On expressions without a negated conjunction or a disjunction, the emitted clauses hold together exactly when the expression (negated, if asked) holds. |
| Expr.NegatedConjunctionCounterexample | utils/expr/expression.go:53-65 | NOT(x = 1 AND y = 2) compiles to x != 1 AND y != 2, which rejects a row with x = 1 and y = 3 that the expression accepts. |
| Expr.ToQuery | utils/expr/expression.go:52-70 | A conjunction or disjunction compiles to one part per child. The connective is AND exactly when the expression is a conjunction and not negated, or a disjunction and negated (De Morgan's law). |
| Expr.ToQuerySound | utils/expr/expression.go:52-70 | The corrected compiler's query holds exactly when the expression (negated, if asked) holds, for every well-formed expression. |
| Expr.CorrectedAgreesOnSafe | utils/expr/expression.go:52-70 | Wherever the original compiler is right, the corrected one accepts the same rows. |
| Paginate.DefaultQuery | engine/internal/utils/paginate.go:14-15 | A present parameter (even empty) is used, and an absent one gives the default. |
| Paginate.PageOf | engine/internal/utils/paginate.go:14-25 | The limit is at least 1 and the offset at least 0. Each is the requested number when it parses and is in range, else 10 and 0. |
| Paginate.ValidPagePassesThrough | engine/internal/utils/paginate.go:17-25 | A positive limit and a non-negative offset, printed in decimal, are applied as given. |
| Paginate.InvalidPageFallsBack | engine/internal/utils/paginate.go:17-25 | A non-positive limit, a negative offset or non-numbers fall back to 10 and 0. |
| Paginate.WithScope | engine/internal/utils/paginate.go:31-36 | A nil factory leaves the query unchanged. Otherwise the factory is registered as a scope. |
| Paginate.PaginatedRun | engine/internal/utils/paginate.go:12-36 | A paginated query always runs with a limit of at least 1 and a non-negative offset, the requested ones when valid. |
| Strconv.Atoi | engine/internal/utils/paginate.go:17-22 | A success is an optional sign followed by digits, its value in the 64-bit range. |
| Strconv.AtoiRoundTrip | engine/internal/utils/paginate.go:17-22 | Atoi reads back every 64-bit int printed in decimal. |
| Strconv.AtoiExamples | engine/internal/utils/paginate.go:17-22 | Empty text, a lone sign or a stray character fails. A plus sign and leading zeros are accepted. |
| UnknownJson.FromMap | engine/internal/utils/unknown_json.go:24-30 | Nil stays nil, and otherwise the entries are kept. |
| UnknownJson.ToMap | engine/internal/utils/unknown_json.go:32-38 | Nil stays nil, and otherwise the entries are kept. |
| UnknownJson.ToMapFromMap | engine/internal/utils/unknown_json.go:24-38 | Converting a map and back gives the same map, nil included. |
| UnknownJson.FromMapToMap | engine/internal/utils/unknown_json.go:24-38 | The converse round trip is the identity too. |
| Env.Getenv | engine/internal/app/config.go:31-35 | An unset variable reads as the empty string. |
| Env.GetEnvDefault | engine/internal/app/config.go:74-79 | The value is used unless unset or empty, in which case the default is. |
| Env.MissingNames | engine/internal/app/config.go:46-66 | The reference list names only required settings left empty, and it is empty exactly when none is. |
| Env.CheckAllReportsMissing | engine/internal/app/config.go:47-65 | The sequence of checks appends exactly the reference list of missing names, in check order. |
| Env.ValidationResult | engine/internal/app/config.go:67-71 | Validation is nil exactly when nothing is missing. Otherwise it is the "missing required env vars" error listing the names. |
| EngineConfig.Validate | engine/internal/app/config.go:46-72 | Validation passes exactly when both ports and DB host, port, user and name are non-empty. It reports the missing names in check order. |
| EngineConfig.FromEnv | engine/internal/app/config.go:24-36 | The defaults are GRPC_PORT 50051, HTTP_PORT 8080, DB_SSLMODE "disable" and empty addresses. The DB settings are read as is. |
| EngineConfig.LoadConfigFromEnv | engine/internal/app/config.go:23-44 | Loading returns the configuration exactly when it validates, and otherwise the validation error. |
| EngineConfig.LoadFailsOnlyOnDatabase | engine/internal/app/config.go:46-66 | Loading fails exactly when a DB host, port, user or name is missing, and only those names are reported. The password, SSL mode and addresses are never required. |
| EngineConfig.EmptyEnvironment | engine/internal/app/config.go:23-72 | With nothing set, the four DB names are reported in order. |
| AgentConfig.Validate | agent/config.go:36-50 | Validation passes exactly when GRPC_PORT and ENGINE_GRPC_URL are non-empty. |
| AgentConfig.FromEnv | agent/config.go:21-27 | The defaults are GRPC_PORT 50051, AGENT_NAME "workflow-agent", AGENT_VERSION "v1.0.0" and ENGINE_GRPC_URL "localhost:60051". The queue and parallelism limits stay 0. |
| AgentConfig.LoadConfigFromEnv | agent/config.go:20-34 | Loading returns the configuration exactly when it validates. |
| AgentConfig.LoadNeverFails | agent/config.go:20-50 | Both required settings have non-empty defaults, so loading never fails. |
| HostPort.JoinHostPort | engine/internal/httpserver/httpserver.go:73-78 | The address is the host, a colon, then the port. It always ends with ":" + port, and an empty host gives ":" + port. |
| HostPort.SplitUndoesJoin | engine-new/internal/httpserver/httpserver.go:49-54 | For a port without a colon, splitting the joined address at its last colon gives the host and port back. |
| HostPort.JoinIsFormat | engine-new/internal/grpcserver/grpcserver.go:48-53 | Both branches are the `"%s:%s"` format, with the empty-host branch its special case. |
| HostPort.JoinHostPortPtr | engine/engine.go:156-161 | A nil host is treated as the empty one. |
| HostPort.NewHttpServer | engine-new/internal/httpserver/httpserver.go:25-28 | The server listens on the joined address and remembers both parts. |
| HostPort.GrpcListenAddress | engine-new/internal/grpcserver/grpcserver.go:23 | The listen address `"%s:%s"` equals the joined address for every input. |
| ArrayUtils.ToMapped | utils/array/map.go:3-9 | Empty input gives nil. Otherwise element i is f of input element i, with f applied exactly once per element, in order. |
| Counter.NewCounter | internal/utils/counter.go:7-9 | A new counter reads 0. |
| Counter.Increment | internal/utils/counter.go:11-13 | The value goes up by one, wrapping from the largest int to the smallest. |
| Counter.Decrement | internal/utils/counter.go:15-17 | The value goes down by one, possibly below zero, wrapping from the smallest int to the largest. |
| Counter.GetValue | internal/utils/counter.go:19-21 | Reading yields an int in range and changes nothing. |
| Counter.IncrementDecrementInverse | internal/utils/counter.go:11-17 | Increment and Decrement undo each other, including at the wrap-around. |
| Counter.RunCounts | internal/utils/counter.go:11-21 | Away from the wrap-around, the counter is its start plus the increments minus the decrements. |

## Left out

- Goroutines, semaphores, WaitGroups and channel blocking are left out. Every `Start` loop and semaphore slot is replaced by an explicit event sequence or an oracle, and whether a receiver is waiting at a non-blocking send is an oracle input. Deadlock and liveness are not stated. The root join listener, which never exits, is modelled by `RootWorker.JoinListener` on an explicit notification sequence. The goroutine leak itself is not modelled.
- The `engine` executors' `Start` loops take a semaphore slot with a blocking send on `sem`, which has `MaxParallelSteps` or `MaxParallelWorkflows` slots (`engine/internal/service/step_executor.go:80-93`, `engine/internal/service/workflow_executor.go:45-58`). With a limit of zero, as in a configuration that leaves it unset, the first execution handed over blocks `Start` for ever. This is not modelled, because the loops are not.
- Real time, sleeps and ids are left out. `time.Now`, `time.Sleep` and `uuid.New`/`uuid.Parse` become oracle inputs or abstract integers, and timestamps are not compared.
- `time.ParseDuration`, `regexp` and JSON/`structpb` conversions become oracles. The regular expression of `semver.go` is reimplemented as a grammar, and `strconv.Atoi` is reimplemented in `Strconv`.
- Semver.Parse: the numbers are unbounded. A number beyond the 64-bit range, whose conversion error the source ignores, is not modelled.
- Semver.IncrementPatch, Semver.IncrementMinor, Semver.IncrementMajor: the 64-bit wrap-around of `++` is not modelled.
- Gin binding is modelled only as far as the handlers depend on it: a bool query parameter with a `default=` tag, which replaces an absent or empty value before `strconv.ParseBool`, and a body that binds or does not. Gorm persistence, the gin handlers other than the version policy and id checks, gRPC servers, connectors and stubs, and engine/agent wiring are left out.
- The read and write pumps of both websocket implementations are left out, as are protobuf encoding and the connection itself.
- EngineNewWs.ResetScopes: each scope operation is one atomic step. `ResetScopes` replaces the map without taking the scopes mutex (`engine-new/internal/ws/connection.go:71-73`), so its race with a concurrent `AddScope` or scope read is not modelled.
- The service methods that only forward to the repository (get by id, search, delete) are left out.
- The root `internal/models/workflow_step_input.go` and the root `WorkflowInstance` model are not part of this model. The root worker resolves step inputs with the `_v1` `WorkflowStepInput`, which has the same signature.
- The root `WorkflowDefinition.GetFirstStep` is not part of this model. The root workflow executor receives the first step as an oracle answer.
- `ToResolved` and `def.NewInstance` in the `engine` execution services are not part of this model.
- RootWorker.StepHandle and RootWorker.WorkflowHandle: the root `queue` package declares no `WorkflowExecutionResult`, and `StepJob.WorkflowFinishedCh` is declared as `chan<- struct{}` (`internal/queue/step.go:8`) although the worker sends results on it. The model gives the result the shape of the `_v1` declaration (`_v1/internal/queue/workflow.go:11-14`), a status and an error. `StepResult` follows its declaration at `internal/worker/step_executor.go:16-19`.
- RootWorker.StepHandle: the model requires the job's workflow definition to have non-nil steps. `GetStepById` dereferences them only inside the successor loop (`internal/models/workflow_definition.go:27`), Step jobs come from two places. The workflow executor (`internal/worker/workflow_executor.go:103-134`) enqueues one only after `GetFirstStep` has found a step. The successor loop passes the same definition on. So the nil case is unreachable, and its panic is not modelled.
- EngineTypeExecutors.AgentExecute: a nil task definition pointer is not modelled.
- EngineAgentIndex.ListAgents: the list holds the agents themselves. This assumes per-iteration loop variables, where older Go would alias every entry to the last one.
- RootQueues.NewMemoryQueue: `make` panics on a negative buffer, so only non-negative buffers are modelled.
- Expr.ToGorm: GORM's grouping of an `Or` inside a chain of `Where`s is not modelled. `Or` groups are emitted as clauses but given no meaning beyond the corrected compiler's. SQL NULLs are not modelled: the relations are two-valued.
- Expr.WellFormed: a comparison with a nil `Left` or `Right` is a nil dereference in the source. The model requires both operands instead of modelling the panic.
- `NewCompareExpression` is left out: it refers to fields `CompareExpression` does not declare, so it does not compile. `Expr.ComparisonOf` builds the same shape from explicit operands.
- Paginate.DefaultQuery: a query parameter given several times is read by its first value only.
- The float progress conversion, the duplicate instance-merge helper of the root HTTP handlers, `validateWfVersion` and the UI are left out.
- The semver test `TestBumps` is left out. It calls functions that are not part of this model.

## Findings

| source | as written | input that shows it | evidently intended | confidence | as-written member | corrected member |
|---|---|---|---|---|---|---|
| utils/expr/expression.go:53-65 | Under `negate`, a conjunction passes the flag to each child and chains them with `Where`. So NOT(a AND b) becomes (NOT a) AND (NOT b). | NOT(x = 1 AND y = 2) on a row with x = 1, y = 3: the expression holds, but the emitted `x != 1 AND y != 2` rejects the row. | De Morgan's law: NOT(a AND b) is (NOT a) OR (NOT b). | high; not executed | Expr.NegatedConjunctionCounterexample | Expr.ToQuerySound |
