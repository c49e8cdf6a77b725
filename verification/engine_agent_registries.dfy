/** The agent registries of the `engine` generation. Creating a connector
    for an agent and pinging it are oracle inputs; a connector is recorded
    only by the name it is stored under. Map iteration order, which Go
    leaves unspecified, is an arbitrary order. */

/** `proto.TaskDefinition`, shared by both registries: id, name,
    description and the parameter schemas (as parsed JSON). */
module ProtoTasks {
  import opened Wrappers
  import opened Json

  datatype TaskDefinition = TaskDefinition(id: string, name: string, description: string,
                                           inputParameters: Option<JsonMap>, outputParameters: Option<JsonMap>)

  /** The ids of some task definitions. */
  function TaskIds(defs: seq<TaskDefinition>): set<string> {
    set d | d in defs :: d.id
  }

  /** Position `i` is the last one in `defs` holding its id: the definition
      that a range loop overwriting by id leaves behind. */
  predicate LastOf(defs: seq<TaskDefinition>, i: int) {
    0 <= i < |defs| && forall j :: i < j < |defs| ==> defs[j].id != defs[i].id
  }

  /** A last position before the final element stays last once the final
      element is dropped, and its id differs from the final one. */
  lemma LastOfInit(defs: seq<TaskDefinition>)
    requires |defs| > 0
    ensures forall i :: LastOf(defs, i) && i < |defs| - 1 ==>
              LastOf(defs[..|defs| - 1], i) && defs[..|defs| - 1][i] == defs[i] && defs[i].id != defs[|defs| - 1].id
  {
  }

  /** Every id of a list of definitions has a last position. */
  lemma {:induction false} LastOfExists(defs: seq<TaskDefinition>, t: string) returns (i: int)
    requires t in TaskIds(defs)
    ensures LastOf(defs, i) && defs[i].id == t
  {
    var n := |defs| - 1;
    if defs[n].id == t {
      i := n;
    } else {
      var pre := defs[..n];
      var d :| d in defs && d.id == t;
      var k :| 0 <= k < |defs| && defs[k] == d;
      assert pre[k] == d;
      i := LastOfExists(pre, t);
      assert pre[i] == defs[i];
    }
  }
}

/** `engine/internal/registry/agent_registry.go`: agents by name, task
    definitions by id and, for each task id, the agent that registered it. */
module EngineAgentIndex {
  import opened Wrappers
  import opened ProtoTasks
  import opened GoErrors
  import opened Json
  import Seqs

  datatype RegisteredAgent = RegisteredAgent(
    name: string,
    version: string,
    address: Option<string>,
    port: string,
    protocol: int,
    supportedTasks: seq<TaskDefinition>)

  /** The Go zero value, returned for an unknown name. */
  const ZeroAgent: RegisteredAgent := RegisteredAgent("", "", None, "", 0, [])

  datatype Registry = Registry(
    agents: map<string, RegisteredAgent>,
    tasks: map<string, TaskDefinition>,
    agentByTask: map<string, string>,
    connectors: set<string>)

  /** The indexes agree: the same task ids in both task maps, each mapped to
      a registered agent, and a connector exactly for each agent. */
  predicate Valid(reg: Registry) {
    && reg.tasks.Keys == reg.agentByTask.Keys
    && (forall t :: t in reg.agentByTask ==> reg.agentByTask[t] in reg.agents)
    && reg.connectors == reg.agents.Keys
  }

  function NewAgentRegistry(): (r: Registry)
    ensures Valid(r) && r.agents == map[] && r.tasks == map[]
  {
    Registry(map[], map[], map[], {})
  }

  /** The outcome of `connector.NewAgentConnector` and of `Ping`. */
  datatype ConnectOracle = ConnectOracle(create: Option<GoError>, ping: Option<GoError>)

  /** The supported tasks indexed in order: each id maps to the last
      definition carrying it and to `name`. */
  function IndexTasks(tasks: map<string, TaskDefinition>, agentByTask: map<string, string>,
                      name: string, defs: seq<TaskDefinition>): (r: (map<string, TaskDefinition>, map<string, string>))
    ensures r.0.Keys == tasks.Keys + TaskIds(defs)
    ensures r.1.Keys == agentByTask.Keys + TaskIds(defs)
    ensures forall i :: LastOf(defs, i) ==> defs[i].id in r.0 && r.0[defs[i].id] == defs[i]
    ensures forall t :: t in TaskIds(defs) ==> r.1[t] == name
    ensures forall t :: t in agentByTask && t !in TaskIds(defs) ==> r.1[t] == agentByTask[t]
    ensures forall t :: t in tasks && t !in TaskIds(defs) ==> r.0[t] == tasks[t]
    decreases |defs|
  {
    if |defs| == 0 then (tasks, agentByTask)
    else
      var last := defs[|defs| - 1];
      var pre := defs[..|defs| - 1];
      var r := IndexTasks(tasks, agentByTask, name, pre);
      assert forall d :: d in defs <==> d in pre || d == last;
      LastOfInit(defs);
      (r.0[last.id := last], r.1[last.id := name])
  }

  /** `RegisterAgent`: a failing connector creation or ping returns its
      error and changes nothing; otherwise the agent, its connector and its
      tasks are stored. */
  function RegisterAgent(reg: Registry, name: string, agent: RegisteredAgent, o: ConnectOracle): (r: (Option<GoError>, Registry))
    ensures o.create.Some? ==> r == (o.create, reg)
    ensures o.create.None? && o.ping.Some? ==> r == (o.ping, reg)
    ensures r.0.None? <==> o.create.None? && o.ping.None?
    ensures r.0.None? ==>
      && r.1.agents == reg.agents[name := agent]
      && r.1.connectors == reg.connectors + {name}
      && r.1.tasks.Keys == reg.tasks.Keys + TaskIds(agent.supportedTasks)
      && r.1.agentByTask.Keys == reg.agentByTask.Keys + TaskIds(agent.supportedTasks)
      && (forall i :: LastOf(agent.supportedTasks, i) ==> r.1.tasks[agent.supportedTasks[i].id] == agent.supportedTasks[i])
      && (forall t :: t in TaskIds(agent.supportedTasks) ==> r.1.agentByTask[t] == name)
      && (forall t :: t in reg.agentByTask && t !in TaskIds(agent.supportedTasks) ==> r.1.agentByTask[t] == reg.agentByTask[t])
      && (forall t :: t in reg.tasks && t !in TaskIds(agent.supportedTasks) ==> r.1.tasks[t] == reg.tasks[t])
  {
    if o.create.Some? then (o.create, reg)
    else if o.ping.Some? then (o.ping, reg)
    else
      var idx := IndexTasks(reg.tasks, reg.agentByTask, name, agent.supportedTasks);
      (None, Registry(reg.agents[name := agent], idx.0, idx.1, reg.connectors + {name}))
  }

  /** Registering keeps the indexes in agreement. */
  lemma RegisterAgentValid(reg: Registry, name: string, agent: RegisteredAgent, o: ConnectOracle)
    requires Valid(reg)
    ensures Valid(RegisterAgent(reg, name, agent, o).1)
  {
    if o.create.None? && o.ping.None? {
      var r := RegisterAgent(reg, name, agent, o).1;
      forall t | t in r.agentByTask
        ensures r.agentByTask[t] in r.agents
      {
        if t !in TaskIds(agent.supportedTasks) {
          assert r.agentByTask[t] == reg.agentByTask[t];
        }
      }
    }
  }

  /** After a successful registration the agent is found under its name,
      every other name answers as before, and each supported id leads to
      the last definition listed for it and to the new agent. */
  lemma RegisterThenLookup(reg: Registry, name: string, agent: RegisteredAgent, o: ConnectOracle, other: string, t: string)
    requires o.create.None? && o.ping.None?
    requires other != name
    requires t in TaskIds(agent.supportedTasks)
    ensures var r := RegisterAgent(reg, name, agent, o).1;
            && GetAgent(r, name) == (agent, true)
            && GetAgent(r, other) == GetAgent(reg, other)
            && t in r.tasks && t in r.agentByTask && r.agentByTask[t] == name
            && exists i :: LastOf(agent.supportedTasks, i) && agent.supportedTasks[i].id == t && r.tasks[t] == agent.supportedTasks[i]
  {
    var i := LastOfExists(agent.supportedTasks, t);
  }

  /** `GetAgent`: the agent, or the zero value, and whether it exists. */
  function GetAgent(reg: Registry, name: string): (r: (RegisteredAgent, bool))
    ensures r.1 <==> name in reg.agents
    ensures r.1 ==> r.0 == reg.agents[name]
    ensures !r.1 ==> r.0 == ZeroAgent
  {
    if name in reg.agents then (reg.agents[name], true) else (ZeroAgent, false)
  }

  /** `UnregisterAgent`: the agent, its connector and exactly the task ids
      mapped to it are removed. */
  function UnregisterAgent(reg: Registry, name: string): (r: Registry)
    ensures name !in r.agents && name !in r.connectors
    ensures forall n :: n != name ==> (n in r.agents <==> n in reg.agents) && (n in r.agents ==> r.agents[n] == reg.agents[n])
    ensures forall t :: t in r.agentByTask <==> t in reg.agentByTask && reg.agentByTask[t] != name
    ensures forall t :: t in r.agentByTask ==> r.agentByTask[t] == reg.agentByTask[t]
    ensures forall t :: t in r.tasks <==> t in reg.tasks && (t in reg.agentByTask ==> reg.agentByTask[t] != name)
    ensures forall t :: t in r.tasks ==> r.tasks[t] == reg.tasks[t]
    ensures r.connectors == reg.connectors - {name}
  {
    var keep := set t | t in reg.agentByTask && reg.agentByTask[t] != name;
    Registry(
      reg.agents - {name},
      map t | t in reg.tasks && t !in (reg.agentByTask.Keys - keep) :: reg.tasks[t],
      map t | t in keep :: reg.agentByTask[t],
      reg.connectors - {name})
  }

  /** Unregistering keeps the indexes in agreement. */
  lemma UnregisterAgentValid(reg: Registry, name: string)
    requires Valid(reg)
    ensures Valid(UnregisterAgent(reg, name))
  {
  }

  /** Re-registering a name with fewer tasks keeps its earlier task ids
      mapped to it: nothing clears the old entries. */
  lemma ReRegisterKeepsOldTasks(reg: Registry, name: string, agent: RegisteredAgent, o: ConnectOracle, t: string)
    requires o.create.None? && o.ping.None?
    requires t in reg.agentByTask && reg.agentByTask[t] == name
    requires t !in TaskIds(agent.supportedTasks)
    ensures t in RegisterAgent(reg, name, agent, o).1.agentByTask
    ensures RegisterAgent(reg, name, agent, o).1.agentByTask[t] == name
  {
  }

  /** Registering then unregistering an agent whose tasks no one else
      registered gives back the registry it was added to. */
  lemma RegisterUnregister(reg: Registry, name: string, agent: RegisteredAgent, o: ConnectOracle)
    requires Valid(reg) && o.create.None? && o.ping.None?
    requires name !in reg.agents
    requires forall t :: t in TaskIds(agent.supportedTasks) ==> t !in reg.tasks
    ensures UnregisterAgent(RegisterAgent(reg, name, agent, o).1, name) == reg
  {
    var r1 := RegisterAgent(reg, name, agent, o).1;
    var r2 := UnregisterAgent(r1, name);
    assert r2.agents == reg.agents;
    assert r2.connectors == reg.connectors;
    UnregisterRestoresAgentByTask(reg, name, agent, o);
    UnregisterRestoresTasks(reg, name, agent, o);
  }

  lemma UnregisterRestoresAgentByTask(reg: Registry, name: string, agent: RegisteredAgent, o: ConnectOracle)
    requires Valid(reg) && o.create.None? && o.ping.None?
    requires name !in reg.agents
    requires forall t :: t in TaskIds(agent.supportedTasks) ==> t !in reg.tasks
    ensures UnregisterAgent(RegisterAgent(reg, name, agent, o).1, name).agentByTask == reg.agentByTask
  {
    var r1 := RegisterAgent(reg, name, agent, o).1;
    var r2 := UnregisterAgent(r1, name);
    forall t | t in reg.agentByTask
      ensures t in r2.agentByTask && r2.agentByTask[t] == reg.agentByTask[t]
    {
      assert t in reg.tasks;
      assert t !in TaskIds(agent.supportedTasks);
      assert r1.agentByTask[t] == reg.agentByTask[t] && reg.agentByTask[t] in reg.agents;
    }
    assert r2.agentByTask.Keys == reg.agentByTask.Keys;
  }

  lemma UnregisterRestoresTasks(reg: Registry, name: string, agent: RegisteredAgent, o: ConnectOracle)
    requires Valid(reg) && o.create.None? && o.ping.None?
    requires name !in reg.agents
    requires forall t :: t in TaskIds(agent.supportedTasks) ==> t !in reg.tasks
    ensures UnregisterAgent(RegisterAgent(reg, name, agent, o).1, name).tasks == reg.tasks
  {
    var r1 := RegisterAgent(reg, name, agent, o).1;
    var r2 := UnregisterAgent(r1, name);
    forall t | t in reg.tasks
      ensures t in r2.tasks && r2.tasks[t] == reg.tasks[t]
    {
      assert reg.agentByTask[t] in reg.agents;
    }
    assert r2.tasks.Keys == reg.tasks.Keys;
  }

  /** `ListAgents`: one entry per registered agent, in map order. */
  method ListAgents(reg: Registry) returns (r: seq<RegisteredAgent>)
    ensures |r| == |reg.agents|
    ensures forall n :: n in reg.agents ==> reg.agents[n] in r
    ensures forall a :: a in r ==> exists n :: n in reg.agents && reg.agents[n] == a
  {
    var names := Seqs.MapKeys(reg.agents);
    r := seq(|names|, i requires 0 <= i < |names| => reg.agents[names[i]]);
    forall n | n in reg.agents
      ensures reg.agents[n] in r
    {
      var i :| 0 <= i < |names| && names[i] == n;
      assert r[i] == reg.agents[n];
    }
  }
}

/** `engine/internal/agent_registry.go`: agents, connectors and task
    definitions by id, without a task-to-agent index. */
module EngineAgentRegistry {
  import opened Wrappers
  import opened ProtoTasks
  import opened GoErrors
  import opened Json
  import Seqs

  datatype RegisteredAgent = RegisteredAgent(
    name: string,
    version: string,
    address: Option<string>,
    port: string,
    protocol: int,
    supportedTasks: seq<TaskDefinition>)

  datatype Registry = Registry(
    agents: map<string, RegisteredAgent>,
    tasks: map<string, TaskDefinition>,
    connectors: set<string>)

  datatype ConnectOracle = ConnectOracle(create: Option<GoError>, ping: Option<GoError>)

  /** The task definitions stored in order: each id maps to the last
      definition carrying it, and other ids keep their entries. */
  function StoreTasks(tasks: map<string, TaskDefinition>, defs: seq<TaskDefinition>): (r: map<string, TaskDefinition>)
    ensures r.Keys == tasks.Keys + TaskIds(defs)
    ensures forall t :: t in r && t !in TaskIds(defs) ==> r[t] == tasks[t]
    ensures forall i :: LastOf(defs, i) ==> defs[i].id in r && r[defs[i].id] == defs[i]
    decreases |defs|
  {
    if |defs| == 0 then tasks
    else
      var last := defs[|defs| - 1];
      var pre := defs[..|defs| - 1];
      assert forall d :: d in defs <==> d in pre || d == last;
      LastOfInit(defs);
      StoreTasks(tasks, pre)[last.id := last]
  }

  /** `RegisterAgent`. */
  function RegisterAgent(reg: Registry, name: string, agent: RegisteredAgent, o: ConnectOracle): (r: (Option<GoError>, Registry))
    ensures o.create.Some? ==> r == (o.create, reg)
    ensures o.create.None? && o.ping.Some? ==> r == (o.ping, reg)
    ensures r.0.None? <==> o.create.None? && o.ping.None?
    ensures r.0.None? ==>
      && r.1.agents == reg.agents[name := agent]
      && r.1.connectors == reg.connectors + {name}
      && r.1.tasks.Keys == reg.tasks.Keys + TaskIds(agent.supportedTasks)
      && (forall i :: LastOf(agent.supportedTasks, i) ==> r.1.tasks[agent.supportedTasks[i].id] == agent.supportedTasks[i])
      && (forall t :: t in reg.tasks && t !in TaskIds(agent.supportedTasks) ==> r.1.tasks[t] == reg.tasks[t])
  {
    if o.create.Some? then (o.create, reg)
    else if o.ping.Some? then (o.ping, reg)
    else (None, Registry(reg.agents[name := agent], StoreTasks(reg.tasks, agent.supportedTasks), reg.connectors + {name}))
  }

  /** `UnregisterAgent`: only the agent entry goes; its connector and task
      definitions stay. */
  function UnregisterAgent(reg: Registry, name: string): (r: Registry)
    ensures r.agents.Keys == reg.agents.Keys - {name}
    ensures forall n :: n in r.agents ==> r.agents[n] == reg.agents[n]
    ensures r.tasks == reg.tasks && r.connectors == reg.connectors
  {
    reg.(agents := reg.agents - {name})
  }

  /** Does the agent list the task id among its supported tasks? */
  predicate Supports(agent: RegisteredAgent, taskId: string) {
    exists d :: d in agent.supportedTasks && d.id == taskId
  }

  /** `GetAgentByTaskName`: the first agent, in map order, that lists the
      task id. */
  method GetAgentByTaskName(reg: Registry, taskName: string) returns (r: Option<RegisteredAgent>)
    ensures r.Some? <==> exists n :: n in reg.agents && Supports(reg.agents[n], taskName)
    ensures r.Some? ==> Supports(r.value, taskName) && exists n :: n in reg.agents && reg.agents[n] == r.value
  {
    var names := Seqs.MapKeys(reg.agents);
    var i := 0;
    while i < |names|
      invariant 0 <= i <= |names|
      invariant forall k :: 0 <= k < i ==> !Supports(reg.agents[names[k]], taskName)
    {
      var agent := reg.agents[names[i]];
      var j := 0;
      while j < |agent.supportedTasks|
        invariant 0 <= j <= |agent.supportedTasks|
        invariant forall k :: 0 <= k < j ==> agent.supportedTasks[k].id != taskName
      {
        if agent.supportedTasks[j].id == taskName {
          return Some(agent);
        }
        j := j + 1;
      }
      i := i + 1;
    }
    forall n | n in reg.agents
      ensures !Supports(reg.agents[n], taskName)
    {
      var k :| 0 <= k < |names| && names[k] == n;
    }
    return None;
  }

  /** `models.TaskDefinitionResponse`: a nil schema converts to an empty
      map. */
  datatype TaskDefinitionResponse = TaskDefinitionResponse(id: string, name: string, description: string,
                                                           inputParameters: JsonMap, outputParameters: JsonMap)

  /** `taskDefResponseFromProto` of a stored definition. */
  function ResponseOf(td: TaskDefinition): (r: TaskDefinitionResponse)
    ensures r.id == td.id && r.name == td.name && r.description == td.description
    ensures td.inputParameters.Some? ==> r.inputParameters == td.inputParameters.value
    ensures td.inputParameters.None? ==> r.inputParameters == map[]
    ensures td.outputParameters.Some? ==> r.outputParameters == td.outputParameters.value
    ensures td.outputParameters.None? ==> r.outputParameters == map[]
  {
    TaskDefinitionResponse(td.id, td.name, td.description,
                           td.inputParameters.GetOr(map[]), td.outputParameters.GetOr(map[]))
  }

  /** `GetTaskDefinition`: the response and whether the id is known. */
  function GetTaskDefinition(reg: Registry, taskId: string): (r: (Option<TaskDefinitionResponse>, bool))
    ensures r.1 <==> taskId in reg.tasks
    ensures r.0.Some? <==> r.1
    ensures r.1 ==> r.0.value == ResponseOf(reg.tasks[taskId])
  {
    if taskId in reg.tasks then (Some(ResponseOf(reg.tasks[taskId])), true) else (None, false)
  }

  /** After a successful registration, `GetTaskDefinition` answers for a
      supported id with the response of the last definition listed for it,
      and answers for every other id as before. */
  lemma RegisterThenGetTaskDefinition(reg: Registry, name: string, agent: RegisteredAgent, o: ConnectOracle, t: string)
    requires o.create.None? && o.ping.None?
    ensures var r := RegisterAgent(reg, name, agent, o).1;
            && (t in TaskIds(agent.supportedTasks) ==>
                  exists i :: LastOf(agent.supportedTasks, i) && agent.supportedTasks[i].id == t &&
                              GetTaskDefinition(r, t) == (Some(ResponseOf(agent.supportedTasks[i])), true))
            && (t !in TaskIds(agent.supportedTasks) ==> GetTaskDefinition(r, t) == GetTaskDefinition(reg, t))
  {
    if t in TaskIds(agent.supportedTasks) {
      var i := LastOfExists(agent.supportedTasks, t);
    }
  }

  /** After unregistering, an agent's tasks are no longer found through the
      agent, but their definitions still are. */
  lemma UnregisterKeepsDefinitions(reg: Registry, name: string, taskId: string)
    requires taskId in reg.tasks
    ensures GetTaskDefinition(UnregisterAgent(reg, name), taskId) == GetTaskDefinition(reg, taskId)
    ensures name !in UnregisterAgent(reg, name).agents
  {
  }

  /** `ListAgentNames`: every registered name exactly once. */
  method ListAgentNames(reg: Registry) returns (names: seq<string>)
    ensures |names| == |reg.agents| && Seqs.Distinct(names)
    ensures forall n :: n in names <==> n in reg.agents
  {
    names := Seqs.MapKeys(reg.agents);
  }

  /** `models.AgentResponse`. */
  datatype AgentResponse = AgentResponse(name: string, version: string, address: Option<string>,
                                         port: string, protocol: int, supportedTasks: seq<string>)

  /** `RegisteredAgent.ToResponse`: the scalar fields, and the supported
      task ids in their original order. */
  function ToResponse(ag: RegisteredAgent): (r: AgentResponse)
    ensures r.name == ag.name && r.version == ag.version && r.address == ag.address
    ensures r.port == ag.port && r.protocol == ag.protocol
    ensures |r.supportedTasks| == |ag.supportedTasks|
    ensures forall i :: 0 <= i < |r.supportedTasks| ==> r.supportedTasks[i] == ag.supportedTasks[i].id
  {
    AgentResponse(ag.name, ag.version, ag.address, ag.port, ag.protocol,
                  seq(|ag.supportedTasks|, i requires 0 <= i < |ag.supportedTasks| => ag.supportedTasks[i].id))
  }

  /** An agent that lists a task id is found for it: the lookup the agent
      step executor makes succeeds exactly for supported tasks. */
  lemma ToResponseListsSupported(ag: RegisteredAgent, taskId: string)
    ensures taskId in ToResponse(ag).supportedTasks <==> Supports(ag, taskId)
  {
    var r := ToResponse(ag);
    if taskId in r.supportedTasks {
      var i :| 0 <= i < |r.supportedTasks| && r.supportedTasks[i] == taskId;
      assert ag.supportedTasks[i] in ag.supportedTasks;
    }
    if Supports(ag, taskId) {
      var d :| d in ag.supportedTasks && d.id == taskId;
      var i :| 0 <= i < |ag.supportedTasks| && ag.supportedTasks[i] == d;
      assert r.supportedTasks[i] == taskId;
    }
  }
}
