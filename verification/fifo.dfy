/** A capacity-bounded FIFO: the Go channel under every queue of the
    engine. A send with a `select … default` fails on a full channel unless
    the channel is unbuffered and a receiver is waiting, which takes the
    item directly; a plain send would block on a full channel and is
    modelled with a not-full precondition; a receive on an empty channel
    would block and yields `None`. */
module Fifo {
  import opened Wrappers

  datatype Queue<T> = Queue(items: seq<T>, capacity: nat)

  /** `make(chan T, capacity)`. */
  function Empty<T>(capacity: nat): (q: Queue<T>)
    ensures Valid(q) && q.items == [] && q.capacity == capacity
  {
    Queue([], capacity)
  }

  /** A channel never holds more than its buffer. */
  predicate Valid<T>(q: Queue<T>) {
    |q.items| <= q.capacity
  }

  predicate HasRoom<T>(q: Queue<T>) {
    |q.items| < q.capacity
  }

  /** A non-blocking send (a `select` with a `default`), made while
      `receiverWaiting` says whether some receiver is blocked in a receive.
      With room, the item is buffered; a waiting receiver takes it from the
      buffer next. Without room, a receiver can only be waiting on an empty
      buffer, which means an unbuffered channel: the item is then handed
      straight to that receiver and the buffer stays as it was. Otherwise
      the send is refused with `None`. */
  function TryPush<T>(q: Queue<T>, x: T, receiverWaiting: bool): (r: Option<Queue<T>>)
    ensures r.Some? <==> HasRoom(q) || HandsOff(q, receiverWaiting)
    ensures r.Some? && HasRoom(q) ==> r.value.items == q.items + [x] && r.value.capacity == q.capacity
    ensures r.Some? && !HasRoom(q) ==> r.value == q
    ensures r.Some? && Valid(q) ==> Valid(r.value)
  {
    if HasRoom(q) then Some(Queue(q.items + [x], q.capacity))
    else if HandsOff(q, receiverWaiting) then Some(q)
    else None
  }

  /** A send on a full channel still succeeds when the buffer is empty (so
      the channel is unbuffered) and a receiver is waiting. */
  predicate HandsOff<T>(q: Queue<T>, receiverWaiting: bool) {
    !HasRoom(q) && receiverWaiting && q.items == []
  }

  /** What receivers get from now on after an accepted non-blocking send:
      the handed-off item first, if there was one, then the buffer. It is
      always the earlier contents followed by the item sent. */
  lemma TryPushDelivers<T>(q: Queue<T>, x: T, receiverWaiting: bool)
    requires TryPush(q, x, receiverWaiting).Some?
    ensures (if HandsOff(q, receiverWaiting) then [x] else []) + Drain(TryPush(q, x, receiverWaiting).value) == q.items + [x]
  {
  }

  /** On an unbuffered channel a non-blocking send succeeds exactly when a
      receiver is waiting, and buffers nothing. */
  lemma UnbufferedSend<T>(x: T, receiverWaiting: bool)
    ensures var r := TryPush(Empty<T>(0), x, receiverWaiting);
            (r.Some? <==> receiverWaiting) && (r.Some? ==> r.value.items == [])
  {
  }

  /** A blocking send on a channel with room. */
  function Push<T>(q: Queue<T>, x: T): (r: Queue<T>)
    requires HasRoom(q)
    ensures r.items == q.items + [x] && r.capacity == q.capacity
    ensures Valid(r)
  {
    Queue(q.items + [x], q.capacity)
  }

  /** A receive: the oldest element and the rest, or `None` when empty. */
  function Pop<T>(q: Queue<T>): (r: Option<(T, Queue<T>)>)
    ensures r.None? <==> |q.items| == 0
    ensures r.Some? ==> r.value.0 == q.items[0] && r.value.1.items == q.items[1..]
    ensures r.Some? ==> r.value.1.capacity == q.capacity
    ensures r.Some? && Valid(q) ==> Valid(r.value.1) && HasRoom(r.value.1)
  {
    if |q.items| == 0 then None else Some((q.items[0], Queue(q.items[1..], q.capacity)))
  }

  /** Blocking sends of `xs`, one after another, with room for all of them. */
  function PushAll<T>(q: Queue<T>, xs: seq<T>): (r: Queue<T>)
    requires |q.items| + |xs| <= q.capacity
    ensures r.capacity == q.capacity
    decreases |xs|
  {
    if |xs| == 0 then q else PushAll(Push(q, xs[0]), xs[1..])
  }

  /** Everything a receiver gets by reading until the channel is empty. */
  function Drain<T>(q: Queue<T>): (r: seq<T>)
    ensures r == q.items
    decreases |q.items|
  {
    match Pop(q)
    case None => []
    case Some((x, rest)) =>
      assert [x] + rest.items == q.items;
      [x] + Drain(rest)
  }

  /** Non-blocking sends of `xs`, one after another, the `i`th made while
      `waiting[i]` says whether a receiver is waiting: the queue after them
      and, for each, whether it was accepted. */
  function TryPushAll<T>(q: Queue<T>, xs: seq<T>, waiting: seq<bool>): (r: (Queue<T>, seq<bool>))
    requires |waiting| == |xs|
    ensures |r.1| == |xs| && r.0.capacity == q.capacity
    decreases |xs|
  {
    if |xs| == 0 then (q, [])
    else match TryPush(q, xs[0], waiting[0])
      case None =>
        var rest := TryPushAll(q, xs[1..], waiting[1..]);
        (rest.0, [false] + rest.1)
      case Some(q1) =>
        var rest := TryPushAll(q1, xs[1..], waiting[1..]);
        (rest.0, [true] + rest.1)
  }

  lemma {:induction false} PushAllAppends<T>(q: Queue<T>, xs: seq<T>)
    requires |q.items| + |xs| <= q.capacity
    ensures PushAll(q, xs).items == q.items + xs
    decreases |xs|
  {
    if |xs| > 0 {
      PushAllAppends(Push(q, xs[0]), xs[1..]);
      assert q.items + [xs[0]] + xs[1..] == q.items + xs;
    }
  }

  /** FIFO order: a receiver gets what was queued, then what was sent, in
      sending order. */
  lemma FifoOrder<T>(q: Queue<T>, xs: seq<T>)
    requires |q.items| + |xs| <= q.capacity
    ensures Drain(PushAll(q, xs)) == q.items + xs
  {
    PushAllAppends(q, xs);
  }

  /** Without receives in between, non-blocking sends on a buffered channel
      are accepted exactly while there is room: the first
      `capacity - |items|` succeed, the rest fail and leave the queue as it
      was. On an unbuffered channel a send is accepted exactly when a
      receiver is waiting for it, and nothing is ever buffered. */
  lemma {:induction false} TryPushAllAcceptsPrefix<T>(q: Queue<T>, xs: seq<T>, waiting: seq<bool>)
    requires Valid(q) && |waiting| == |xs|
    ensures var room := q.capacity - |q.items|;
            var n := if |xs| < room then |xs| else room;
            && TryPushAll(q, xs, waiting).0.items == q.items + xs[..n]
            && (forall i :: 0 <= i < |xs| ==> (TryPushAll(q, xs, waiting).1[i] <==> i < n || (q.capacity == 0 && waiting[i])))
            && Valid(TryPushAll(q, xs, waiting).0)
    decreases |xs|
  {
    if |xs| > 0 {
      var room := q.capacity - |q.items|;
      var n := if |xs| < room then |xs| else room;
      var r := TryPushAll(q, xs, waiting);
      if HasRoom(q) {
        var q1 := Queue(q.items + [xs[0]], q.capacity);
        TryPushAllAcceptsPrefix(q1, xs[1..], waiting[1..]);
        var rest := TryPushAll(q1, xs[1..], waiting[1..]);
        assert r.1 == [true] + rest.1;
        assert xs[1..][..n - 1] == xs[1..n];
        assert q1.items + xs[1..n] == q.items + xs[..n];
        forall i | 0 <= i < |xs|
          ensures r.1[i] <==> i < n
        {
          if i > 0 {
            assert r.1[i] == rest.1[i - 1];
          }
        }
      } else {
        TryPushAllAcceptsPrefix(q, xs[1..], waiting[1..]);
        var rest := TryPushAll(q, xs[1..], waiting[1..]);
        assert r.1 == (if HandsOff(q, waiting[0]) then [true] else [false]) + rest.1;
        assert xs[..n] == [];
        forall i | 0 <= i < |xs|
          ensures r.1[i] <==> i < n || (q.capacity == 0 && waiting[i])
        {
          if i > 0 {
            assert r.1[i] == rest.1[i - 1];
            assert waiting[1..][i - 1] == waiting[i];
          }
        }
      }
    }
  }
}
