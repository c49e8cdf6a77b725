/** Building a listen address from a host and a port, as the `joinHostPort`
    helpers of `engine/engine.go`, `engine/internal/httpserver/httpserver.go`,
    `engine-new/internal/httpserver/httpserver.go` and
    `engine-new/internal/grpcserver/grpcserver.go` do: an empty host gives
    `":" + port`, any other host gives `host + ":" + port`. */
module HostPort {
  import opened Wrappers

  /** The shared `joinHostPort(host, port string)`. */
  function JoinHostPort(host: string, port: string): (r: string)
    ensures |r| == |host| + 1 + |port|
    ensures r[..|host|] == host && r[|host|] == ':' && r[|host| + 1..] == port
  {
    if host == "" then ":" + port else host + ":" + port
  }

  /** The last index of `c` in `s`, if any. */
  function LastIndex(s: string, c: char): (r: Option<nat>)
    ensures r.Some? ==> r.value < |s| && s[r.value] == c && c !in s[r.value + 1..]
    ensures r.None? ==> c !in s
  {
    if |s| == 0 then None
    else if s[|s| - 1] == c then Some(|s| - 1)
    else
      var r := LastIndex(s[..|s| - 1], c);
      assert r.Some? ==> s[r.value + 1..] == s[..|s| - 1][r.value + 1..] + [s[|s| - 1]];
      assert r.None? ==> s == s[..|s| - 1] + [s[|s| - 1]];
      r
  }

  /** The reading of an address that undoes the join: host and port are
      split at the last colon; an address without a colon has none. */
  function SplitHostPort(addr: string): (r: Option<(string, string)>)
    ensures r.Some? ==> r.value.0 + ":" + r.value.1 == addr && ':' !in r.value.1
    ensures r.None? <==> ':' !in addr
  {
    match LastIndex(addr, ':')
    case None => None
    case Some(i) =>
      assert addr == addr[..i] + ":" + addr[i + 1..];
      Some((addr[..i], addr[i + 1..]))
  }

  /** Joining loses nothing when the port holds no colon (the host may):
      splitting at the last colon gives the host and the port back. */
  lemma {:induction false} SplitUndoesJoin(host: string, port: string)
    ensures ':' !in port ==> SplitHostPort(JoinHostPort(host, port)) == Some((host, port))
  {
    if ':' in port { return; }
    var a := JoinHostPort(host, port);
    var i := LastIndex(a, ':');
    assert a[|host|] == ':';
    assert i.Some?;
  }

  /** The empty-host branch is the general format with an empty host, so
      `fmt.Sprintf("%s:%s", host, port)` (the gRPC listen address of
      `engine-new`) always equals the joined address. */
  lemma {:induction false} JoinIsFormat(host: string, port: string)
    ensures JoinHostPort(host, port) == host + ":" + port
    ensures host == "" ==> JoinHostPort(host, port) == ":" + port
  {
    if host == "" {
      assert host + ":" + port == ":" + port;
    }
  }

  /** `engine/engine.go`'s `joinHostPort(host *string, port string)`: a nil
      host is treated as the empty one. */
  function JoinHostPortPtr(host: Option<string>, port: string): (r: string)
    ensures host.None? ==> r == ":" + port
    ensures host.Some? ==> r == JoinHostPort(host.value, port)
  {
    if host.None? || host.value == "" then ":" + port else host.value + ":" + port
  }

  /** The parts of an HTTP server the address logic decides. */
  datatype HttpServer = HttpServer(address: string, port: string, addr: string)

  /** `NewHttpServer` of `engine` and of `engine-new`: the server listens on
      the joined address and remembers both parts. */
  function NewHttpServer(address: string, port: string): (r: HttpServer)
    ensures r.address == address && r.port == port
    ensures r.addr == address + ":" + port
    ensures ':' !in port ==> SplitHostPort(r.addr) == Some((address, port))
  {
    JoinIsFormat(address, port);
    SplitUndoesJoin(address, port);
    HttpServer(address, port, JoinHostPort(address, port))
  }

  /** `NewGrpcServer` of `engine-new` listens on `"%s:%s"` of its address
      and port. */
  function GrpcListenAddress(address: string, port: string): (r: string)
    ensures r == JoinHostPort(address, port)
  {
    JoinIsFormat(address, port);
    address + ":" + port
  }
}

/** `utils/array`'s `ToMapped`. The Go result starts as a nil slice and is
    only allocated by the first append, so an empty input gives nil
    (`None`); otherwise the mapped slice (`Some`). */
module ArrayUtils {
  import opened Wrappers

  /** Applies `f` to each element in order. Besides the result, the method
      returns the arguments `f` was applied to, one per call, so that the
      calls themselves are part of the contract. */
  method ToMapped<T, U>(s: seq<T>, f: T -> U) returns (r: Option<seq<U>>, calls: seq<T>)
    ensures r.None? <==> |s| == 0
    ensures r.Some? ==> |r.value| == |s| && forall i :: 0 <= i < |s| ==> r.value[i] == f(s[i])
    ensures calls == s
  {
    r := None;
    calls := [];
    var i := 0;
    while i < |s|
      invariant 0 <= i <= |s|
      invariant r.None? <==> i == 0
      invariant r.Some? ==> |r.value| == i && forall j :: 0 <= j < i ==> r.value[j] == f(s[j])
      invariant calls == s[..i]
    {
      var y := f(s[i]);
      calls := calls + [s[i]];
      r := match r
        case None => Some([y])
        case Some(xs) => Some(xs + [y]);
      i := i + 1;
    }
  }
}

/** `internal/utils`'s `Counter`: a Go `int` (64 bits) that is incremented
    and decremented without a bound check, so it wraps around. */
module Counter {
  import GoInt

  datatype Counter = Counter(value: int)

  predicate Valid(c: Counter) {
    GoInt.InRange(c.value)
  }

  /** `NewCounter`. */
  function NewCounter(): (c: Counter)
    ensures Valid(c) && GetValue(c) == 0
  {
    Counter(0)
  }

  /** `Increment`: one more, wrapping from the largest int to the smallest. */
  function Increment(c: Counter): (r: Counter)
    requires Valid(c)
    ensures Valid(r)
    ensures c.value < GoInt.IntMax ==> r.value == c.value + 1
    ensures c.value == GoInt.IntMax ==> r.value == GoInt.IntMin
  {
    Counter(GoInt.Wrap(c.value + 1))
  }

  /** `Decrement`: one less, going negative below zero and wrapping from the
      smallest int to the largest. */
  function Decrement(c: Counter): (r: Counter)
    requires Valid(c)
    ensures Valid(r)
    ensures c.value > GoInt.IntMin ==> r.value == c.value - 1
    ensures c.value == GoInt.IntMin ==> r.value == GoInt.IntMax
  {
    Counter(GoInt.Wrap(c.value - 1))
  }

  /** `GetValue`: reads the counter; as a function of the state it cannot
      change it. */
  function GetValue(c: Counter): (v: int)
    ensures Valid(c) ==> GoInt.InRange(v)
  {
    c.value
  }

  /** Increment and Decrement undo each other, at the wrap-around points
      too. */
  lemma IncrementDecrementInverse(c: Counter)
    requires Valid(c)
    ensures Decrement(Increment(c)) == c
    ensures Increment(Decrement(c)) == c
  {
  }

  /** A sequence of counter operations, as `true` for Increment and `false`
      for Decrement. */
  function Run(c: Counter, ops: seq<bool>): (r: Counter)
    requires Valid(c)
    ensures Valid(r)
    decreases |ops|
  {
    if |ops| == 0 then c
    else Run(if ops[0] then Increment(c) else Decrement(c), ops[1..])
  }

  /** Away from the wrap-around, the counter holds its start plus the
      number of increments minus the number of decrements. */
  lemma {:induction false} RunCounts(c: Counter, ops: seq<bool>)
    requires Valid(c)
    requires GoInt.IntMin + |ops| <= c.value <= GoInt.IntMax - |ops|
    ensures Run(c, ops).value == c.value + Net(ops)
    decreases |ops|
  {
    if |ops| > 0 {
      var c' := if ops[0] then Increment(c) else Decrement(c);
      RunCounts(c', ops[1..]);
    }
  }

  /** The number of `true`s less the number of `false`s. */
  function Net(ops: seq<bool>): (n: int)
    ensures -|ops| <= n <= |ops|
  {
    if |ops| == 0 then 0 else (if ops[0] then 1 else -1) + Net(ops[1..])
  }
}
