/** Reading configuration from the process environment, shared by the
    engine's and the agent's `LoadConfigFromEnv`. The environment is a map;
    `os.Getenv` of an unset variable is the empty string. */
module Env {
  import opened GoErrors

  type Environment = map<string, string>

  /** `os.Getenv`. */
  function Getenv(env: Environment, key: string): (r: string)
    ensures key in env ==> r == env[key]
    ensures key !in env ==> r == ""
  {
    if key in env then env[key] else ""
  }

  /** `getEnvDefault`: the variable's value unless it is unset or empty. */
  function GetEnvDefault(env: Environment, key: string, def: string): (r: string)
    ensures Getenv(env, key) != "" ==> r == env[key]
    ensures Getenv(env, key) == "" ==> r == def
    ensures def != "" ==> r != ""
  {
    var v := Getenv(env, key);
    if v != "" then v else def
  }

  /** `%v` of a `[]string`: the elements separated by spaces, in brackets. */
  function FormatList(xs: seq<string>): string {
    "[" + JoinSpaces(xs) + "]"
  }

  function JoinSpaces(xs: seq<string>): string
    decreases |xs|
  {
    if |xs| == 0 then "" else if |xs| == 1 then xs[0] else xs[0] + " " + JoinSpaces(xs[1..])
  }

  /** The error `validate` returns for the names it found missing. */
  function MissingError(missing: seq<string>): GoError {
    New("missing required env vars: " + FormatList(missing))
  }

  /** A required setting: its variable's name and the value it got. */
  datatype Required = Required(name: string, value: string)

  /** The reference meaning of `validate`: the names of the required
      settings left empty, in the order they are checked. */
  function MissingNames(rs: seq<Required>): (r: seq<string>)
    ensures forall n :: n in r ==> exists i :: 0 <= i < |rs| && rs[i].name == n && rs[i].value == ""
    ensures r == [] <==> forall i :: 0 <= i < |rs| ==> rs[i].value != ""
    decreases |rs|
  {
    if |rs| == 0 then []
    else
      var rest := MissingNames(rs[1..]);
      assert forall i :: 1 <= i < |rs| ==> rs[i] == rs[1..][i - 1];
      if rs[0].value == "" then [rs[0].name] + rest else rest
  }

  /** One `if v == "" { missing = append(missing, name) }` of `validate`. */
  function Check(missing: seq<string>, r: Required): seq<string> {
    if r.value == "" then missing + [r.name] else missing
  }

  /** The checks of `validate` run in order over the required settings. */
  function CheckAll(missing: seq<string>, rs: seq<Required>): seq<string>
    decreases |rs|
  {
    if |rs| == 0 then missing else CheckAll(Check(missing, rs[0]), rs[1..])
  }

  /** Running the checks appends exactly the reference list of missing
      names, in the order the settings are checked. */
  lemma {:induction false} CheckAllReportsMissing(missing: seq<string>, rs: seq<Required>)
    ensures CheckAll(missing, rs) == missing + MissingNames(rs)
    decreases |rs|
  {
    if |rs| > 0 {
      CheckAllReportsMissing(Check(missing, rs[0]), rs[1..]);
      if rs[0].value == "" {
        assert missing + [rs[0].name] + MissingNames(rs[1..]) == missing + ([rs[0].name] + MissingNames(rs[1..]));
      }
    }
  }

  /** The outcome of `validate` for a list of missing names. */
  function ValidationResult(missing: seq<string>): (r: Option<GoError>)
    ensures r.None? <==> missing == []
    ensures r.Some? ==> r.value == MissingError(missing)
  {
    if |missing| > 0 then Some(MissingError(missing)) else None
  }

  import opened Wrappers
}

/** The engine's configuration (`engine/internal/app/config.go`). */
module EngineConfig {
  import opened Wrappers
  import opened GoErrors
  import opened Env

  datatype Config = Config(
    grpcAddress: string,
    grpcPort: string,
    httpAddress: string,
    httpPort: string,
    dbHost: string,
    dbPort: string,
    dbUser: string,
    dbPassword: string,
    dbName: string,
    dbSslMode: string)

  /** The settings `validate` checks, in its order. */
  function RequiredSettings(c: Config): seq<Required> {
    [Required("GRPC_PORT", c.grpcPort), Required("HTTP_PORT", c.httpPort), Required("DB_HOST", c.dbHost),
     Required("DB_PORT", c.dbPort), Required("DB_USER", c.dbUser), Required("DB_NAME", c.dbName)]
  }

  /** `validate`: one check per required setting, each appending its name
      when the setting is empty. */
  function Validate(c: Config): (r: Option<GoError>)
    ensures r.None? <==> c.grpcPort != "" && c.httpPort != "" && c.dbHost != "" && c.dbPort != "" && c.dbUser != "" && c.dbName != ""
    ensures r == ValidationResult(MissingNames(RequiredSettings(c)))
  {
    var rs := RequiredSettings(c);
    CheckAllReportsMissing([], rs);
    assert [] + MissingNames(rs) == MissingNames(rs);
    assert rs[0].value == c.grpcPort && rs[1].value == c.httpPort && rs[2].value == c.dbHost;
    assert rs[3].value == c.dbPort && rs[4].value == c.dbUser && rs[5].value == c.dbName;
    ValidationResult(CheckAll([], rs))
  }

  /** The configuration read from the environment, before validation. */
  function FromEnv(env: Environment): (c: Config)
    ensures c.grpcAddress == GetEnvDefault(env, "GRPC_ADDRESS", "") && c.grpcPort == GetEnvDefault(env, "GRPC_PORT", "50051")
    ensures c.httpAddress == GetEnvDefault(env, "HTTP_ADDRESS", "") && c.httpPort == GetEnvDefault(env, "HTTP_PORT", "8080")
    ensures c.dbHost == Getenv(env, "DB_HOST") && c.dbPort == Getenv(env, "DB_PORT") && c.dbUser == Getenv(env, "DB_USER")
    ensures c.dbPassword == Getenv(env, "DB_PASSWORD") && c.dbName == Getenv(env, "DB_NAME")
    ensures c.dbSslMode == GetEnvDefault(env, "DB_SSLMODE", "disable")
  {
    Config(
      GetEnvDefault(env, "GRPC_ADDRESS", ""), GetEnvDefault(env, "GRPC_PORT", "50051"),
      GetEnvDefault(env, "HTTP_ADDRESS", ""), GetEnvDefault(env, "HTTP_PORT", "8080"),
      Getenv(env, "DB_HOST"), Getenv(env, "DB_PORT"), Getenv(env, "DB_USER"),
      Getenv(env, "DB_PASSWORD"), Getenv(env, "DB_NAME"),
      GetEnvDefault(env, "DB_SSLMODE", "disable"))
  }

  /** `LoadConfigFromEnv`. */
  function LoadConfigFromEnv(env: Environment): (r: Result<Config, GoError>)
    ensures r.Ok? <==> Validate(FromEnv(env)).None?
    ensures r.Ok? ==> r.value == FromEnv(env)
    ensures r.Err? ==> r.error == Validate(FromEnv(env)).value
  {
    var c := FromEnv(env);
    match Validate(c)
    case Some(e) => Err(e)
    case None => Ok(c)
  }

  /** The ports always have defaults, so loading fails exactly when a
      database setting is missing, and only database names are reported. */
  lemma LoadFailsOnlyOnDatabase(env: Environment)
    ensures LoadConfigFromEnv(env).Ok? <==>
              Getenv(env, "DB_HOST") != "" && Getenv(env, "DB_PORT") != "" && Getenv(env, "DB_USER") != "" && Getenv(env, "DB_NAME") != ""
    ensures forall n :: n in MissingNames(RequiredSettings(FromEnv(env))) ==> n in {"DB_HOST", "DB_PORT", "DB_USER", "DB_NAME"}
  {
    var rs := RequiredSettings(FromEnv(env));
    forall n | n in MissingNames(rs)
      ensures n in {"DB_HOST", "DB_PORT", "DB_USER", "DB_NAME"}
    {
      var i :| 0 <= i < |rs| && rs[i].name == n && rs[i].value == "";
    }
  }

  /** With no variables set, the defaults are used and the four database
      names are reported, in order. */
  lemma EmptyEnvironment()
    ensures FromEnv(map[]) == Config("", "50051", "", "8080", "", "", "", "", "", "disable")
    ensures LoadConfigFromEnv(map[]) == Err(MissingError(["DB_HOST", "DB_PORT", "DB_USER", "DB_NAME"]))
  {
  }
}

/** The agent's configuration (`agent/config.go`). */
module AgentConfig {
  import opened Wrappers
  import opened GoErrors
  import opened Env

  datatype Config = Config(
    name: string,
    version: string,
    engineGrpcUrl: string,
    maxQueueSize: int,
    maxParallelTasks: int,
    grpcAddress: string,
    grpcPort: string)

  function RequiredSettings(c: Config): seq<Required> {
    [Required("GRPC_PORT", c.grpcPort), Required("ENGINE_GRPC_URL", c.engineGrpcUrl)]
  }

  /** `validate`: the gRPC port and the engine URL are required. */
  function Validate(c: Config): (r: Option<GoError>)
    ensures r.None? <==> c.grpcPort != "" && c.engineGrpcUrl != ""
    ensures r == ValidationResult(MissingNames(RequiredSettings(c)))
  {
    var rs := RequiredSettings(c);
    CheckAllReportsMissing([], rs);
    assert [] + MissingNames(rs) == MissingNames(rs);
    assert rs[0].value == c.grpcPort && rs[1].value == c.engineGrpcUrl;
    ValidationResult(CheckAll([], rs))
  }

  /** The configuration read from the environment; the queue size and task
      parallelism are never read and stay zero. */
  function FromEnv(env: Environment): (c: Config)
    ensures c.grpcAddress == GetEnvDefault(env, "GRPC_ADDRESS", "") && c.grpcPort == GetEnvDefault(env, "GRPC_PORT", "50051")
    ensures c.name == GetEnvDefault(env, "AGENT_NAME", "workflow-agent") && c.version == GetEnvDefault(env, "AGENT_VERSION", "v1.0.0")
    ensures c.engineGrpcUrl == GetEnvDefault(env, "ENGINE_GRPC_URL", "localhost:60051")
    ensures c.maxQueueSize == 0 && c.maxParallelTasks == 0
  {
    Config(
      GetEnvDefault(env, "AGENT_NAME", "workflow-agent"), GetEnvDefault(env, "AGENT_VERSION", "v1.0.0"),
      GetEnvDefault(env, "ENGINE_GRPC_URL", "localhost:60051"), 0, 0,
      GetEnvDefault(env, "GRPC_ADDRESS", ""), GetEnvDefault(env, "GRPC_PORT", "50051"))
  }

  /** `LoadConfigFromEnv`. */
  function LoadConfigFromEnv(env: Environment): (r: Result<Config, GoError>)
    ensures r.Ok? <==> Validate(FromEnv(env)).None?
    ensures r.Ok? ==> r.value == FromEnv(env)
  {
    var c := FromEnv(env);
    match Validate(c)
    case Some(e) => Err(e)
    case None => Ok(c)
  }

  /** Both required settings have non-empty defaults, so loading the
      agent's configuration never fails. */
  lemma LoadNeverFails(env: Environment)
    ensures LoadConfigFromEnv(env).Ok?
    ensures MissingNames(RequiredSettings(FromEnv(env))) == []
  {
  }
}
