/** The websocket hub of the `engine` generation
    (`engine/internal/websocket.go`): which clients a message is for, the
    subscribe command, the broadcast that drops clients whose buffer is
    full, and client registration. The hub's `Run` loop is modelled as one
    function per event it handles; the read and write pumps, protobuf
    encoding and the connection itself are left out. Each client's send
    channel is a bounded FIFO of 256 messages. */
module EngineWebsocket {
  import opened Wrappers
  import Fifo

  /** A `WebsocketScope`: a scope type (a protobuf enum) and an optional id. */
  datatype Scope = Scope(scopeType: int, id: Option<string>)

  /** A client's subscriptions: for each scope type, the ids it follows. */
  type Scopes = map<int, seq<string>>

  /** The message kinds the hub itself produces or forwards. */
  datatype MessageKind = Registered(clientId: string) | Forwarded(messageType: int)

  datatype Message = Message(kind: MessageKind, scope: Option<Scope>)

  const SendBuffer: nat := 256

  datatype Client = Client(id: string, scopes: Scopes, send: Fifo.Queue<Message>)

  /** The hub's clients by id, and the ids whose send channel it closed. */
  datatype Hub = Hub(clients: map<string, Client>, closed: set<string>)

  /** Every client is stored under its id, with a 256-slot buffer that is
      not over-full. */
  predicate Valid(h: Hub) {
    forall id :: id in h.clients ==>
      h.clients[id].id == id && h.clients[id].send.capacity == SendBuffer && Fifo.Valid(h.clients[id].send)
  }

  /** `NewWebsocketClient`, with the uuid as an input: no scopes yet. */
  function NewClient(id: string): (c: Client)
    ensures c.id == id && c.scopes == map[] && c.send.items == [] && c.send.capacity == SendBuffer
  {
    Client(id, map[], Fifo.Empty(SendBuffer))
  }

  // ---------------------------------------------------------------------------
  // Scope matching

  /** The reference meaning of a match: a message without scope is for
      everyone; otherwise the client must follow the scope's type and, when
      the scope names an id, that id. */
  predicate Matches(clientScopes: Scopes, messageScope: Option<Scope>) {
    || messageScope.None?
    || (&& messageScope.value.scopeType in clientScopes
        && (messageScope.value.id.None? || messageScope.value.id.value in clientScopes[messageScope.value.scopeType]))
  }

  /** `IsInScope`: a linear search of the ids followed for the message's
      scope type. */
  method IsInScope(clientScopes: Scopes, messageScope: Option<Scope>) returns (r: bool)
    ensures r <==> Matches(clientScopes, messageScope)
  {
    if messageScope.None? {
      return true;
    }
    var scope := messageScope.value;
    if scope.scopeType !in clientScopes {
      return false;
    }
    if scope.id.None? {
      return true;
    }
    var allowed := clientScopes[scope.scopeType];
    var i := 0;
    while i < |allowed|
      invariant 0 <= i <= |allowed|
      invariant forall k :: 0 <= k < i ==> allowed[k] != scope.id.value
    {
      if allowed[i] == scope.id.value {
        return true;
      }
      i := i + 1;
    }
    return false;
  }

  // ---------------------------------------------------------------------------
  // Subscribe

  /** The scopes a subscribe command builds, in command order: every listed
      type gets an entry, and each non-nil id is appended to its type's
      list. */
  function BuildScopes(scopes: seq<Scope>): (r: Scopes)
    ensures forall i :: 0 <= i < |scopes| ==> scopes[i].scopeType in r
    decreases |scopes|
  {
    if |scopes| == 0 then map[]
    else
      var m := BuildScopes(scopes[..|scopes| - 1]);
      var s := scopes[|scopes| - 1];
      var current := if s.scopeType in m then m[s.scopeType] else [];
      m[s.scopeType := if s.id.Some? then current + [s.id.value] else current]
  }

  /** The ids the command lists for type `t`, in order. */
  function IdsFor(scopes: seq<Scope>, t: int): (r: seq<string>)
    decreases |scopes|
  {
    if |scopes| == 0 then []
    else
      var s := scopes[|scopes| - 1];
      IdsFor(scopes[..|scopes| - 1], t) + (if s.scopeType == t && s.id.Some? then [s.id.value] else [])
  }

  /** The subscriptions a command builds are exactly the listed types, each
      with the ids listed for it, in order. */
  lemma {:induction false} BuildScopesContents(scopes: seq<Scope>, t: int)
    ensures t in BuildScopes(scopes) <==> exists s :: s in scopes && s.scopeType == t
    ensures t in BuildScopes(scopes) ==> BuildScopes(scopes)[t] == IdsFor(scopes, t)
    decreases |scopes|
  {
    if |scopes| > 0 {
      var init := scopes[..|scopes| - 1];
      BuildScopesContents(init, t);
      assert forall s :: s in scopes <==> s in init || s == scopes[|scopes| - 1];
      if t !in BuildScopes(init) {
        IdsForAbsent(init, t);
      }
    }
  }

  lemma {:induction false} IdsForAbsent(scopes: seq<Scope>, t: int)
    requires forall s :: s in scopes ==> s.scopeType != t
    ensures IdsFor(scopes, t) == []
    decreases |scopes|
  {
    if |scopes| > 0 {
      IdsForAbsent(scopes[..|scopes| - 1], t);
    }
  }

  lemma {:induction false} IdsForMembers(scopes: seq<Scope>, t: int, id: string)
    ensures id in IdsFor(scopes, t) <==> Scope(t, Some(id)) in scopes
    decreases |scopes|
  {
    if |scopes| > 0 {
      var init := scopes[..|scopes| - 1];
      IdsForMembers(init, t, id);
      assert forall s :: s in scopes <==> s in init || s == scopes[|scopes| - 1];
    }
  }

  /** After a subscribe, a message is for the client exactly when its scope
      is unset, or its type was listed and, if it names an id, that id was
      listed with that type. Earlier subscriptions play no part. */
  lemma SubscribedMatches(scopes: seq<Scope>, messageScope: Scope)
    ensures Matches(BuildScopes(scopes), Some(messageScope)) <==>
      if messageScope.id.None? then exists s :: s in scopes && s.scopeType == messageScope.scopeType
      else messageScope in scopes
  {
    var t := messageScope.scopeType;
    BuildScopesContents(scopes, t);
    if messageScope.id.Some? {
      IdsForMembers(scopes, t, messageScope.id.value);
    }
  }

  /** A command arriving on the hub's incoming channel. */
  datatype Command =
    | Subscribe(clientId: string, scopes: seq<Scope>)
    | OtherCommand(clientId: string)

  /** `handleIncomingCommand`: a subscribe from a known client replaces its
      scopes entirely; anything else changes nothing. */
  function HandleCommand(h: Hub, cmd: Command): (r: Hub)
    ensures cmd.OtherCommand? || cmd.clientId !in h.clients ==> r == h
    ensures cmd.Subscribe? && cmd.clientId in h.clients ==>
      r == h.(clients := h.clients[cmd.clientId := h.clients[cmd.clientId].(scopes := BuildScopes(cmd.scopes))])
    ensures Valid(h) ==> Valid(r)
  {
    match cmd
    case OtherCommand(_) => h
    case Subscribe(id, scopes) =>
      if id !in h.clients then h
      else h.(clients := h.clients[id := h.clients[id].(scopes := BuildScopes(scopes))])
  }

  // ---------------------------------------------------------------------------
  // Broadcast, register, unregister

  /** Is the client to be dropped by this broadcast: in scope, but with a
      full buffer? */
  predicate Overflows(c: Client, msg: Message) {
    Matches(c.scopes, msg.scope) && !Fifo.HasRoom(c.send)
  }

  /** `handleMessageBroadcast`: out-of-scope clients are skipped; an
      in-scope client with room gets the message; one whose buffer is full
      has its channel closed and is removed. Clients do not affect each
      other, so the map's visiting order does not matter. */
  function Broadcast(h: Hub, msg: Message): (r: Hub)
    ensures forall id :: id in r.clients <==> id in h.clients && !Overflows(h.clients[id], msg)
    ensures forall id :: id in r.clients && !Matches(h.clients[id].scopes, msg.scope) ==> r.clients[id] == h.clients[id]
    ensures forall id :: id in r.clients && Matches(h.clients[id].scopes, msg.scope) ==>
              r.clients[id] == h.clients[id].(send := h.clients[id].send.(items := h.clients[id].send.items + [msg]))
    ensures r.closed == h.closed + (set id | id in h.clients && Overflows(h.clients[id], msg))
  {
    Hub(
      map id | id in h.clients && !Overflows(h.clients[id], msg) ::
        if Matches(h.clients[id].scopes, msg.scope)
        then h.clients[id].(send := h.clients[id].send.(items := h.clients[id].send.items + [msg]))
        else h.clients[id],
      h.closed + (set id | id in h.clients && Overflows(h.clients[id], msg)))
  }

  /** A broadcast keeps every buffer within its 256 slots. */
  lemma BroadcastValid(h: Hub, msg: Message)
    requires Valid(h)
    ensures Valid(Broadcast(h, msg))
  {
  }

  /** A client with room that the message is for receives it last, after
      everything already queued for it. */
  lemma BroadcastDelivers(h: Hub, msg: Message, id: string)
    requires id in h.clients && Matches(h.clients[id].scopes, msg.scope) && Fifo.HasRoom(h.clients[id].send)
    ensures id in Broadcast(h, msg).clients
    ensures var q := Broadcast(h, msg).clients[id].send.items;
            q[|q| - 1] == msg && q[..|q| - 1] == h.clients[id].send.items
  {
  }

  /** A register event: the client is stored and a REGISTERED message
      without scope is broadcast to every client, the new one included.
      Every client with room, the new one included, keeps its place and
      gets the message after what it already had; a client whose buffer is
      full is dropped and its channel closed. */
  function Register(h: Hub, c: Client): (r: Hub)
    ensures var all := h.clients[c.id := c];
            forall id :: id in r.clients <==> id in all && Fifo.HasRoom(all[id].send)
    ensures var all := h.clients[c.id := c];
            forall id :: id in r.clients ==>
              r.clients[id] == all[id].(send := all[id].send.(items := all[id].send.items + [Message(Registered(c.id), None)]))
    ensures var all := h.clients[c.id := c];
            forall id :: id in r.closed <==> id in h.closed || (id in all && !Fifo.HasRoom(all[id].send))
  {
    Broadcast(h.(clients := h.clients[c.id := c]), Message(Registered(c.id), None))
  }

  /** A fresh client is never dropped by its own registration: it receives
      the REGISTERED message as its first one. */
  lemma RegisterGreetsNewClient(h: Hub, id: string)
    ensures var r := Register(h, NewClient(id));
            id in r.clients && r.clients[id].send.items == [Message(Registered(id), None)]
  {
  }

  /** An unregister event: a known client is removed and its channel
      closed; an unknown id changes nothing. */
  function Unregister(h: Hub, clientId: string): (r: Hub)
    ensures clientId !in h.clients ==> r == h
    ensures clientId in h.clients ==> r.clients == h.clients - {clientId} && r.closed == h.closed + {clientId}
    ensures Valid(h) ==> Valid(r)
  {
    if clientId in h.clients then Hub(h.clients - {clientId}, h.closed + {clientId}) else h
  }
}
