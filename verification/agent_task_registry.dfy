/** The task-definition registry of the agent
    (`agent/internal/task_definition_registry.go`, and its copy
    `agent/internal/registry/task_definition_registry.go`, which has the
    same fields and the same four operations). Parameter schemas are JSON
    documents; converting one to a protobuf struct (marshal, unmarshal,
    `structpb.NewStruct`) is an oracle that yields nil on any failure.
    Handlers are not modelled. */
module AgentTaskRegistry {
  import opened Wrappers
  import opened Json
  import Seqs

  datatype TaskDefinition = TaskDefinition(
    id: string,
    name: string,
    description: string,
    inputParameters: Option<JsonMap>,
    outputParameters: Option<JsonMap>)

  /** Definitions by id. */
  type Registry = map<string, TaskDefinition>

  /** Each definition is stored under its own id. */
  predicate Valid(reg: Registry) {
    forall id :: id in reg ==> reg[id].id == id
  }

  /** `NewTaskDefinitionRegistry`. */
  function NewRegistry(): (r: Registry)
    ensures Valid(r) && |r| == 0
  {
    map[]
  }

  /** `Register`: stored under its id; a later registration of the same id
      replaces the earlier one. */
  function Register(reg: Registry, def: TaskDefinition): (r: Registry)
    ensures r.Keys == reg.Keys + {def.id}
    ensures r[def.id] == def
    ensures forall id :: id in reg && id != def.id ==> r[id] == reg[id]
    ensures Valid(reg) ==> Valid(r)
  {
    reg[def.id := def]
  }

  /** The Go zero value, returned for an unknown id. */
  const ZeroDefinition: TaskDefinition := TaskDefinition("", "", "", None, None)

  /** `Get`: the stored definition, or the zero value, and whether it was
      found. */
  function Get(reg: Registry, id: string): (r: (TaskDefinition, bool))
    ensures r.1 <==> id in reg
    ensures r.1 ==> r.0 == reg[id]
    ensures !r.1 ==> r.0 == ZeroDefinition
  {
    if id in reg then (reg[id], true) else (ZeroDefinition, false)
  }

  /** The last registration of an id is the one found, and registering one
      id never changes what another finds. */
  lemma RegisterThenGet(reg: Registry, a: TaskDefinition, b: TaskDefinition, other: string)
    requires a.id == b.id && other != a.id
    ensures Get(Register(Register(reg, a), b), a.id) == (b, true)
    ensures Get(Register(reg, a), other) == Get(reg, other)
  {
  }

  /** `List`: one entry per registered id, in map order. */
  method List(reg: Registry) returns (defs: seq<TaskDefinition>)
    requires Valid(reg)
    ensures |defs| == |reg|
    ensures forall id :: id in reg <==> exists i :: 0 <= i < |defs| && defs[i].id == id
    ensures forall i :: 0 <= i < |defs| ==> defs[i].id in reg && defs[i] == reg[defs[i].id]
    ensures forall i, j :: 0 <= i < j < |defs| ==> defs[i].id != defs[j].id
  {
    var ids := Seqs.MapKeys(reg);
    defs := seq(|ids|, i requires 0 <= i < |ids| => reg[ids[i]]);
    forall id | id in reg
      ensures exists i :: 0 <= i < |defs| && defs[i].id == id
    {
      var i :| 0 <= i < |ids| && ids[i] == id;
      assert defs[i].id == id;
    }
  }

  /** `schemaToProto`: nil stays nil; otherwise the conversion's result,
      nil when it fails. */
  function SchemaToProto(p: Option<JsonMap>, convert: JsonMap -> Option<JsonMap>): (r: Option<JsonMap>)
    ensures p.None? ==> r.None?
    ensures p.Some? ==> r == convert(p.value)
  {
    match p
    case None => None
    case Some(schema) => convert(schema)
  }

  /** A `proto.TaskDefinition`. */
  datatype ProtoTaskDefinition = ProtoTaskDefinition(
    id: string,
    name: string,
    description: string,
    inputParameters: Option<JsonMap>,
    outputParameters: Option<JsonMap>)

  function ProtoOf(def: TaskDefinition, convert: JsonMap -> Option<JsonMap>): (r: ProtoTaskDefinition)
    ensures r.id == def.id && r.name == def.name && r.description == def.description
    ensures r.inputParameters == SchemaToProto(def.inputParameters, convert)
    ensures r.outputParameters == SchemaToProto(def.outputParameters, convert)
  {
    ProtoTaskDefinition(def.id, def.name, def.description,
                        SchemaToProto(def.inputParameters, convert), SchemaToProto(def.outputParameters, convert))
  }

  /** `ToProto`: one protobuf definition per registered definition, copying
      its id, name and description. */
  method ToProto(reg: Registry, convert: JsonMap -> Option<JsonMap>) returns (r: seq<ProtoTaskDefinition>)
    requires Valid(reg)
    ensures |r| == |reg|
    ensures forall i :: 0 <= i < |r| ==> r[i].id in reg && r[i] == ProtoOf(reg[r[i].id], convert)
    ensures forall id :: id in reg <==> exists i :: 0 <= i < |r| && r[i].id == id
  {
    var defs := List(reg);
    r := seq(|defs|, i requires 0 <= i < |defs| => ProtoOf(defs[i], convert));
    forall id | id in reg
      ensures exists i :: 0 <= i < |r| && r[i].id == id
    {
      var i :| 0 <= i < |defs| && defs[i].id == id;
      assert r[i].id == id;
    }
  }
}
