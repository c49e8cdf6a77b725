/** The websocket connections of the `engine-new` generation
    (`engine-new/internal/ws/`): a connection's subscriptions, the subscribe
    command handler, the command-handler registry and the dispatch of a
    decoded command from the read pump. The socket, the pumps' timers and
    protobuf decoding are left out. Each operation is modelled as one
    atomic step: `AddScope` and the scope reads hold the scopes mutex, but
    `ResetScopes` replaces the map without it, so a reset racing another
    goroutine's scope access is not modelled. */
module EngineNewWs {
  import opened Wrappers
  import opened GoErrors
  import Fifo

  /** A `WebsocketScope` of a subscribe command. */
  datatype Scope = Scope(scopeType: int, id: Option<string>)

  /** An outgoing `WebsocketMessage`, opaque here. */
  datatype Message = Message(messageType: int)

  datatype Connection = Connection(
    id: string,
    scopes: map<int, seq<string>>,
    send: Fifo.Queue<Message>,
    cancelled: bool)

  const SendBuffer: nat := 256

  /** The reference meaning of a subscription: the type is followed and, if
      an id is asked about, that id is listed for it. */
  predicate Subscribed(scopes: map<int, seq<string>>, t: int, id: Option<string>) {
    t in scopes && (id.None? || id.value in scopes[t])
  }

  /** `NewConnection`: subscribed to nothing, with a 256-slot send buffer. */
  function NewConnection(id: string): (c: Connection)
    ensures c.id == id && !c.cancelled
    ensures c.send.items == [] && c.send.capacity == SendBuffer
    ensures forall t, sid :: !Subscribed(c.scopes, t, sid)
  {
    Connection(id, map[], Fifo.Empty(SendBuffer), false)
  }

  /** `ResetScopes`: forgets every subscription. */
  function ResetScopes(c: Connection): (r: Connection)
    ensures forall t, sid :: !Subscribed(r.scopes, t, sid)
    ensures r.id == c.id && r.send == c.send && r.cancelled == c.cancelled
  {
    c.(scopes := map[])
  }

  /** `AddScope`: subscribes to the type and, when an id is given, to that
      id; nothing else changes and nothing is lost. */
  function AddScope(c: Connection, t: int, sid: Option<string>): (r: Connection)
    ensures forall t', sid' :: Subscribed(r.scopes, t', sid') <==> Subscribed(c.scopes, t', sid') || (t' == t && (sid'.None? || sid' == sid))
    ensures r.id == c.id && r.send == c.send && r.cancelled == c.cancelled
  {
    var current := if t in c.scopes then c.scopes[t] else [];
    c.(scopes := c.scopes[t := if sid.Some? then current + [sid.value] else current])
  }

  /** `IsSubscribedTo`: a linear search of the ids followed for the type. */
  method IsSubscribedTo(c: Connection, t: int, sid: Option<string>) returns (r: bool)
    ensures r <==> Subscribed(c.scopes, t, sid)
  {
    if t !in c.scopes {
      return false;
    }
    if sid.None? {
      return true;
    }
    var ids := c.scopes[t];
    var i := 0;
    while i < |ids|
      invariant 0 <= i <= |ids|
      invariant forall k :: 0 <= k < i ==> ids[k] != sid.value
    {
      if ids[i] == sid.value {
        return true;
      }
      i := i + 1;
    }
    return false;
  }

  /** A change to a connection's subscriptions. */
  datatype ScopeChange = Reset | Add(scopeType: int, scopeId: Option<string>)

  /** The connection after a sequence of changes, in order. */
  function Replay(c: Connection, changes: seq<ScopeChange>): (r: Connection)
    decreases |changes|
  {
    if |changes| == 0 then c
    else
      var prev := Replay(c, changes[..|changes| - 1]);
      match changes[|changes| - 1]
      case Reset => ResetScopes(prev)
      case Add(t, sid) => AddScope(prev, t, sid)
  }

  /** Is there an `Add` among `changes` that subscribes to `(t, sid)`? */
  predicate AddedIn(changes: seq<ScopeChange>, t: int, sid: Option<string>) {
    exists k :: 0 <= k < |changes| && changes[k].Add? && changes[k].scopeType == t && (sid.None? || changes[k].scopeId == sid)
  }

  /** Starting from a new connection, a scope is subscribed exactly when some
      `Add` since the last reset (or since the start) covers it. */
  lemma {:induction false} SubscribedSinceReset(id: string, changes: seq<ScopeChange>, t: int, sid: Option<string>)
    requires forall k :: 0 <= k < |changes| ==> changes[k] != Reset
    ensures Subscribed(Replay(NewConnection(id), changes).scopes, t, sid) <==> AddedIn(changes, t, sid)
    decreases |changes|
  {
    if |changes| > 0 {
      var init := changes[..|changes| - 1];
      SubscribedSinceReset(id, init, t, sid);
      if AddedIn(changes, t, sid) && !AddedIn(init, t, sid) {
        var k :| 0 <= k < |changes| && changes[k].Add? && changes[k].scopeType == t && (sid.None? || changes[k].scopeId == sid);
        assert k == |changes| - 1;
      }
      if AddedIn(init, t, sid) {
        var k :| 0 <= k < |init| && init[k].Add? && init[k].scopeType == t && (sid.None? || init[k].scopeId == sid);
        assert changes[k] == init[k];
      }
    }
  }

  /** A reset wipes out everything earlier: only the changes after it
      matter. */
  lemma {:induction false} ReplayAfterReset(c: Connection, before: seq<ScopeChange>, after: seq<ScopeChange>)
    ensures Replay(c, before + [Reset] + after).scopes == Replay(NewConnection(c.id), after).scopes
    decreases |after|
  {
    var all := before + [Reset] + after;
    if |after| == 0 {
      assert all[..|all| - 1] == before;
    } else {
      assert all[..|all| - 1] == before + [Reset] + after[..|after| - 1];
      ReplayAfterReset(c, before, after[..|after| - 1]);
    }
  }

  /** The adds a subscribe command performs, in command order. */
  function AddsOf(scopes: seq<Scope>): (r: seq<ScopeChange>)
    ensures |r| == |scopes|
    ensures forall k :: 0 <= k < |r| ==> r[k] == Add(scopes[k].scopeType, scopes[k].id)
  {
    seq(|scopes|, k requires 0 <= k < |scopes| => Add(scopes[k].scopeType, scopes[k].id))
  }

  // ---------------------------------------------------------------------------
  // Commands

  /** A decoded `WebsocketCommand`: its type and its oneof body (None when
      the body is unset). */
  datatype CommandBody = SubscribeBody(scopes: seq<Scope>) | OtherBody
  datatype Command = Command(commandType: int, body: Option<CommandBody>)

  /** `SubscribeCommandHandler.Handle`: without a subscribe body nothing
      changes; otherwise the scopes are reset and each listed scope is added
      in order. It never fails. */
  function HandleSubscribe(c: Connection, cmd: Command): (r: (Connection, Option<GoError>))
    ensures r.1.None?
    ensures !(cmd.body.Some? && cmd.body.value.SubscribeBody?) ==> r.0 == c
    ensures cmd.body.Some? && cmd.body.value.SubscribeBody? ==>
              r.0 == Replay(c, [Reset] + AddsOf(cmd.body.value.scopes))
  {
    match cmd.body
    case Some(SubscribeBody(scopes)) => (Replay(c, [Reset] + AddsOf(scopes)), None)
    case _ => (c, None)
  }

  /** After a subscribe command, a scope is followed exactly when the command
      lists its type (for a type-wide question) or lists that very scope;
      earlier subscriptions are gone. */
  lemma SubscribeReplaces(c: Connection, scopes: seq<Scope>, t: int, sid: Option<string>)
    ensures var r := HandleSubscribe(c, Command(0, Some(SubscribeBody(scopes)))).0;
            Subscribed(r.scopes, t, sid) <==> exists k :: 0 <= k < |scopes| && scopes[k].scopeType == t && (sid.None? || scopes[k].id == sid)
  {
    var adds := AddsOf(scopes);
    ReplayAfterReset(c, [], adds);
    assert [] + [Reset] + adds == [Reset] + adds;
    SubscribedSinceReset(c.id, adds, t, sid);
  }

  /** A command handler: the subscribe handler, or one this model does not
      define (identified by a tag). */
  datatype Handler = SubscribeHandler | ForeignHandler(tag: string)

  /** `Registry`: handlers by command type. */
  type Registry = map<int, Handler>

  /** `RegisterCommand`: stores the handler, replacing any earlier one for
      that type. */
  function RegisterCommand(reg: Registry, cmdType: int, h: Handler): (r: Registry)
    ensures r.Keys == reg.Keys + {cmdType} && r[cmdType] == h
    ensures forall t :: t in reg && t != cmdType ==> r[t] == reg[t]
  {
    reg[cmdType := h]
  }

  /** `GetCommandHandler`: the handler and whether there is one; a nil
      interface when there is none. */
  function GetCommandHandler(reg: Registry, cmdType: int): (r: Option<Handler>)
    ensures r.Some? <==> cmdType in reg
    ensures r.Some? ==> r.value == reg[cmdType]
  {
    if cmdType in reg then Some(reg[cmdType]) else None
  }

  /** What the read pump did with a decoded command. */
  datatype Dispatch =
    | Ignored                             // no command body
    | Unhandled                           // no handler for the type
    | Handled(conn: Connection, err: Option<GoError>)
    | Delegated(tag: string)              // a handler outside this model

  /** The command step of `readPump`: a command without body is skipped;
      otherwise the handler registered for its type runs, and a handler
      error is only logged. */
  function DispatchCommand(reg: Registry, c: Connection, cmd: Command): (r: Dispatch)
    ensures cmd.body.None? <==> r.Ignored?
    ensures r.Unhandled? <==> cmd.body.Some? && cmd.commandType !in reg
    ensures r.Handled? ==> cmd.commandType in reg && reg[cmd.commandType] == SubscribeHandler && (r.conn, r.err) == HandleSubscribe(c, cmd)
  {
    if cmd.body.None? then Ignored
    else match GetCommandHandler(reg, cmd.commandType)
      case None => Unhandled
      case Some(SubscribeHandler) => var (c', err) := HandleSubscribe(c, cmd); Handled(c', err)
      case Some(ForeignHandler(tag)) => Delegated(tag)
  }

  /** A later registration wins: the command goes to the handler registered
      last for its type. */
  lemma LastRegistrationWins(reg: Registry, cmdType: int, c: Connection, scopes: seq<Scope>, tag: string)
    ensures DispatchCommand(RegisterCommand(RegisterCommand(reg, cmdType, SubscribeHandler), cmdType, ForeignHandler(tag)),
                            c, Command(cmdType, Some(SubscribeBody(scopes)))) == Delegated(tag)
  {
  }

  // ---------------------------------------------------------------------------
  // Sending

  const ErrContextCanceled: string := "context canceled"

  /** What `SendMessage` did. */
  datatype SendOutcome = Sent(conn: Connection) | Failed(err: GoError) | Blocked

  /** `SendMessage`: a send into the buffer or, once the connection is
      cancelled, the context's error. When both are ready Go picks either;
      `preferSend` is that choice. A full buffer on a live connection
      blocks. */
  function SendMessage(c: Connection, msg: Message, preferSend: bool): (r: SendOutcome)
    ensures r.Sent? ==> Fifo.HasRoom(c.send) && r.conn == c.(send := c.send.(items := c.send.items + [msg]))
    ensures r.Failed? <==> c.cancelled && !(Fifo.HasRoom(c.send) && preferSend)
    ensures r.Failed? ==> r.err == New(ErrContextCanceled)
    ensures r.Blocked? <==> !c.cancelled && !Fifo.HasRoom(c.send)
  {
    var canSend := Fifo.HasRoom(c.send);
    if canSend && (preferSend || !c.cancelled) then Sent(c.(send := Fifo.Push(c.send, msg)))
    else if c.cancelled then Failed(New(ErrContextCanceled))
    else Blocked
  }
}
