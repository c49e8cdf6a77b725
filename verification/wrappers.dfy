/** Failure-compatible wrappers used by every module of the model.
    `Option` stands for a Go pointer or a `(value, ok)` pair, `Result` for a
    Go `(value, error)` pair. */
module Wrappers {

  datatype Option<+T> = None | Some(value: T) {
    predicate IsFailure() { None? }

    function PropagateFailure<U>(): Option<U>
      requires None?
    {
      None
    }

    function Extract(): T
      requires Some?
    {
      value
    }

    function GetOr(default: T): T {
      match this
      case Some(v) => v
      case None => default
    }
  }

  datatype Result<+R, +E> = Ok(value: R) | Err(error: E) {
    predicate IsFailure() { Err? }

    function PropagateFailure<U>(): Result<U, E>
      requires Err?
    {
      Err(error)
    }

    function Extract(): R
      requires Ok?
    {
      value
    }
  }
}

/** A Go `error`. Errors joined with `errors.Join` keep every non-nil message
    in order, so an error is modelled as its non-empty list of messages. */
module GoErrors {
  import opened Wrappers

  datatype GoError = GoError(messages: seq<string>)

  function New(message: string): GoError {
    GoError([message])
  }

  /** `errors.Join(err, errors.New(message))`: a nil first argument is dropped. */
  function JoinWith(err: Option<GoError>, message: string): (r: GoError)
    ensures |r.messages| >= 1 && r.messages[|r.messages| - 1] == message
    ensures err.None? ==> r.messages == [message]
    ensures err.Some? ==> r.messages[..|r.messages| - 1] == err.value.messages
  {
    match err
    case None => New(message)
    case Some(e) => GoError(e.messages + [message])
  }

  /** `err.Error()`: the messages of a joined error, separated by newlines. */
  function ErrorString(e: GoError): (s: string)
    ensures |e.messages| == 1 ==> s == e.messages[0]
  {
    JoinLines(e.messages)
  }

  function JoinLines(ms: seq<string>): string
    decreases |ms|
  {
    if |ms| == 0 then ""
    else if |ms| == 1 then ms[0]
    else ms[0] + "\n" + JoinLines(ms[1..])
  }
}

/** JSON values after decoding (`interface{}` in the source). Numbers are
    integers; floating point is not modelled. */
module Json {
  import opened Wrappers

  datatype Value =
    | Null
    | Bool(b: bool)
    | Number(n: int)
    | Str(s: string)
    | Object(fields: map<string, Value>)
    | Array(items: seq<Value>)

  /** A JSON object, `map[string]interface{}`. */
  type JsonMap = map<string, Value>

  /** Go's `m[key]` on a `map[string]interface{}`: absent keys read as nil. */
  function Lookup(m: JsonMap, key: string): (v: Value)
    ensures key !in m ==> v == Null
    ensures key in m ==> v == m[key]
  {
    if key in m then m[key] else Null
  }
}
