/** The browser-side message dispatcher `WSON` (web/static/wson.js): one WebSocket,
    a table of persistent handlers and a table of one-shot request resolvers, both
    keyed by message name. Each transition returns the new state together with the
    handler and resolver invocations it causes, in the order they happen. */
module Wson {
  import opened Wrappers
  import opened JsonValue

  type Name = string

  /** An opaque JavaScript callback registered with `on`, `onopen` or `onclose`. */
  type HandlerId = nat

  /** The resolver of the promise one `fetch` call returned. */
  type PromiseId = nat

  /** One invocation caused by an inbound frame. */
  datatype Call =
    | Invoke(name: Name, handler: HandlerId, payload: Json)
    | Resolve(name: Name, promise: PromiseId, payload: Json)

  /** An inbound text frame after `JSON.parse`: its `Object.keys` in order, each with
      its value; or a frame `JSON.parse` (or `Object.keys`) throws on. */
  datatype Frame = Parsed(fields: seq<(Name, Json)>) | Malformed

  /** The dispatcher's state. `outbox` is what `ws.send` was given, oldest first. */
  datatype Client = Client(
    handlers: map<Name, HandlerId>,
    requests: map<Name, PromiseId>,
    onOpen: Option<HandlerId>,
    onClose: Option<HandlerId>,
    outbox: seq<Json>)

  const Init: Client := Client(map[], map[], None, None, [])

  /** `on(msg, handler)`: the single handler for `msg` becomes `h`. */
  function On(c: Client, msg: Name, h: HandlerId): (r: Client)
    ensures r.handlers.Keys == c.handlers.Keys + {msg} && r.handlers[msg] == h
    ensures forall n | n in c.handlers && n != msg :: r.handlers[n] == c.handlers[n]
    ensures r == c.(handlers := r.handlers)
  {
    c.(handlers := c.handlers[msg := h])
  }

  /** `off(msg)`: `msg` has no handler any more. */
  function Off(c: Client, msg: Name): (r: Client)
    ensures r.handlers.Keys == c.handlers.Keys - {msg}
    ensures forall n | n in r.handlers :: r.handlers[n] == c.handlers[n]
    ensures r == c.(handlers := r.handlers)
  {
    c.(handlers := c.handlers - {msg})
  }

  /** Removing a handler that was just added for a fresh name restores the table. */
  lemma {:induction false} OffUndoesOn(c: Client, msg: Name, h: HandlerId)
    requires msg !in c.handlers
    ensures Off(On(c, msg, h), msg) == c
  {
    assert (c.handlers[msg := h] - {msg}) == c.handlers;
  }

  /** `onopen(handler)`: overwrites the socket's one `onopen` callback. */
  function SetOnOpen(c: Client, h: HandlerId): (r: Client)
    ensures r.onOpen == Some(h) && r.(onOpen := c.onOpen) == c
  {
    c.(onOpen := Some(h))
  }

  /** `onclose(handler)`: overwrites the socket's one `onclose` callback. */
  function SetOnClose(c: Client, h: HandlerId): (r: Client)
    ensures r.onClose == Some(h) && r.(onClose := c.onClose) == c
  {
    c.(onClose := Some(h))
  }

  /** Registering a second open or close callback discards the first: they are not lists. */
  lemma {:induction false} LifecycleCallbacksReplace(c: Client, h1: HandlerId, h2: HandlerId)
    ensures SetOnOpen(SetOnOpen(c, h1), h2) == SetOnOpen(c, h2)
    ensures SetOnClose(SetOnClose(c, h1), h2) == SetOnClose(c, h2)
  {
  }

  /** `data || {}`. */
  function OrEmpty(d: Json): (r: Json)
    ensures !Falsy(r)
    ensures !Falsy(d) ==> r == d
  {
    if Falsy(d) then EmptyObject else d
  }

  /** `send(msg, data)`: exactly one single-key envelope `{msg: data || {}}` leaves. */
  function Send(c: Client, msg: Name, data: Json): (r: Client)
    ensures |r.outbox| == |c.outbox| + 1 && r.outbox[..|c.outbox|] == c.outbox
    ensures var e := r.outbox[|c.outbox|];
      e.Obj? && |e.fields| == 1 && e.fields[0].0 == msg && Get(e, msg) == OrEmpty(data)
    ensures Falsy(data) ==> r.outbox[|c.outbox|] == Envelope(msg, EmptyObject)
    ensures r == c.(outbox := r.outbox)
  {
    c.(outbox := c.outbox + [Envelope(msg, OrEmpty(data))])
  }

  /** `fetch(msg, args)` creating promise `p`: the resolver is stored under `msg`
      (replacing any earlier one) and then `{msg: args}` is sent; an omitted
      argument is `undefined` and defaults to `{}`. */
  function Fetch(c: Client, msg: Name, args: Json, p: PromiseId): (r: Client)
    ensures r.requests == c.requests[msg := p]
    ensures r.handlers == c.handlers && r.onOpen == c.onOpen && r.onClose == c.onClose
    ensures r.outbox == c.outbox + [Envelope(msg, OrEmpty(args))]
  {
    var a := if args == Undefined then EmptyObject else args;
    Send(c.(requests := c.requests[msg := p]), msg, a)
  }

  /** The names a parsed frame carries. */
  function Names(fields: seq<(Name, Json)>): set<Name> {
    set i | 0 <= i < |fields| :: fields[i].0
  }

  /** The payload that goes with the first occurrence of `n`. */
  function FirstPayload(fields: seq<(Name, Json)>, n: Name): (r: Option<Json>)
    ensures r.Some? <==> n in Names(fields)
  {
    if fields == [] then None
    else if fields[0].0 == n then Some(fields[0].1)
    else
      assert Names(fields) == {fields[0].0} + Names(fields[1..]);
      FirstPayload(fields[1..], n)
  }

  predicate ResolvedNamesDistinct(calls: seq<Call>) {
    forall i, j | 0 <= i < j < |calls| && calls[i].Resolve? && calls[j].Resolve? :: calls[i].name != calls[j].name
  }

  /** The `for` loop of `ws.onmessage` over the keys of one parsed frame. For each key
      the handler (if any) is invoked and, independently, a pending request for that
      key (if any) is resolved and deleted. Which handlers run is stated by
      `DispatchInvokesHandlers`. */
  function Dispatch(handlers: map<Name, HandlerId>, requests: map<Name, PromiseId>,
                    fields: seq<(Name, Json)>): (r: (map<Name, PromiseId>, seq<Call>))
    ensures r.0.Keys == requests.Keys - Names(fields)
    ensures forall n | n in r.0 :: r.0[n] == requests[n]
    ensures ResolvesOnly(requests, fields, r.1)
    ensures ResolvesAll(requests, fields, r.1)
    ensures ResolvedNamesDistinct(r.1)
    decreases |fields|
  {
    if fields == [] then (requests, [])
    else
      var (name, payload) := fields[0];
      var invoked := Invoked(handlers, name, payload);
      var resolved := Resolved(requests, name, payload);
      var rest := Dispatch(handlers, requests - {name}, fields[1..]);
      assert Names(fields) == {name} + Names(fields[1..]);
      ResolvesOnlyStep(requests, fields, invoked, rest.1);
      ResolvesAllStep(requests, fields, invoked, rest.1);
      ResolvedDistinctStep(requests, fields, invoked, rest.1);
      (rest.0, invoked + resolved + rest.1)
  }

  /** The handler call one key causes. */
  function Invoked(handlers: map<Name, HandlerId>, name: Name, payload: Json): seq<Call> {
    if name in handlers then [Invoke(name, handlers[name], payload)] else []
  }

  /** The request resolution one key causes. */
  function Resolved(requests: map<Name, PromiseId>, name: Name, payload: Json): seq<Call> {
    if name in requests then [Resolve(name, requests[name], payload)] else []
  }

  /** Every resolution is of a pending request, with the first payload for its name. */
  predicate ResolvesOnly(requests: map<Name, PromiseId>, fields: seq<(Name, Json)>, calls: seq<Call>) {
    forall e | e in calls && e.Resolve? ::
      e.name in requests && e.promise == requests[e.name] && FirstPayload(fields, e.name) == Some(e.payload)
  }

  /** Every pending request the frame names is resolved. */
  predicate ResolvesAll(requests: map<Name, PromiseId>, fields: seq<(Name, Json)>, calls: seq<Call>) {
    forall n | n in requests && n in Names(fields) :: Resolve(n, requests[n], FirstPayload(fields, n).value) in calls
  }

  lemma {:induction false} ResolvesOnlyStep(requests: map<Name, PromiseId>, fields: seq<(Name, Json)>, invoked: seq<Call>, rest: seq<Call>)
    requires fields != [] && forall e | e in invoked :: e.Invoke?
    requires ResolvesOnly(requests - {fields[0].0}, fields[1..], rest)
    ensures ResolvesOnly(requests, fields, invoked + Resolved(requests, fields[0].0, fields[0].1) + rest)
  {
    var name := fields[0].0;
    var all := invoked + Resolved(requests, name, fields[0].1) + rest;
    forall e | e in all && e.Resolve?
      ensures e.name in requests && e.promise == requests[e.name] && FirstPayload(fields, e.name) == Some(e.payload)
    {
      if e !in rest {
        assert e in Resolved(requests, name, fields[0].1);
      }
    }
  }

  lemma {:induction false} ResolvesAllStep(requests: map<Name, PromiseId>, fields: seq<(Name, Json)>, invoked: seq<Call>, rest: seq<Call>)
    requires fields != []
    requires ResolvesAll(requests - {fields[0].0}, fields[1..], rest)
    ensures ResolvesAll(requests, fields, invoked + Resolved(requests, fields[0].0, fields[0].1) + rest)
  {
    var name := fields[0].0;
    var all := invoked + Resolved(requests, name, fields[0].1) + rest;
    assert Names(fields) == {name} + Names(fields[1..]);
    forall n | n in requests && n in Names(fields)
      ensures Resolve(n, requests[n], FirstPayload(fields, n).value) in all
    {
      if n == name {
        assert all[|invoked|] == Resolve(n, requests[n], FirstPayload(fields, n).value);
      } else {
        assert n in requests - {name};
        assert Resolve(n, requests[n], FirstPayload(fields[1..], n).value) in rest;
      }
    }
  }

  lemma {:induction false} ResolvedDistinctStep(requests: map<Name, PromiseId>, fields: seq<(Name, Json)>, invoked: seq<Call>, rest: seq<Call>)
    requires fields != [] && forall e | e in invoked :: e.Invoke?
    requires ResolvesOnly(requests - {fields[0].0}, fields[1..], rest) && ResolvedNamesDistinct(rest)
    ensures ResolvedNamesDistinct(invoked + Resolved(requests, fields[0].0, fields[0].1) + rest)
  {
    var head := invoked + Resolved(requests, fields[0].0, fields[0].1);
    var all := head + rest;
    assert |Resolved(requests, fields[0].0, fields[0].1)| <= 1;
    assert forall k | 0 <= k < |invoked| :: all[k] == invoked[k] && all[k] in invoked;
    forall i, j | 0 <= i < j < |all| && all[i].Resolve? && all[j].Resolve?
      ensures all[i].name != all[j].name
    {
      if i < |head| {
        if j >= |head| {
          assert all[j] in rest;
        }
      } else {
        assert all[i] == rest[i - |head|] && all[j] == rest[j - |head|];
      }
    }
  }

  /** Whether the handler registered for a key throws when invoked with the key's
      payload. The handlers are opaque callbacks, so which of them throw on which
      payloads is a parameter `throws`. Resolvers only call `resolve` and never throw. */
  predicate HandlerThrows(handlers: map<Name, HandlerId>, throws: (HandlerId, Json) -> bool, field: (Name, Json)) {
    field.0 in handlers && throws(handlers[field.0], field.1)
  }

  /** How many keys the loop of `ws.onmessage` finishes: it stops at the first key
      whose handler throws, because the exception leaves `onmessage`. */
  function Reach(handlers: map<Name, HandlerId>, throws: (HandlerId, Json) -> bool, fields: seq<(Name, Json)>): (k: nat)
    ensures k <= |fields|
    ensures k < |fields| ==> HandlerThrows(handlers, throws, fields[k])
    ensures forall i | 0 <= i < k :: !HandlerThrows(handlers, throws, fields[i])
    decreases |fields|
  {
    if fields == [] then 0
    else if HandlerThrows(handlers, throws, fields[0]) then 0
    else
      var k := Reach(handlers, throws, fields[1..]);
      assert forall i | 1 <= i < k + 1 :: fields[i] == fields[1..][i - 1];
      k + 1
  }

  /** `ws.onmessage` for one frame: the new state, the invocations, and whether the
      handler threw. A malformed frame throws before anything is dispatched; otherwise
      the keys before the first throwing handler are dispatched in full, and then that
      handler is invoked and its exception ends the frame, so neither its own key's
      request nor any later key is dispatched. */
  datatype Delivery = Delivery(client: Client, calls: seq<Call>, threw: bool)

  function OnMessage(c: Client, f: Frame, throws: (HandlerId, Json) -> bool): (d: Delivery)
    ensures f.Malformed? ==> d == Delivery(c, [], true)
    ensures f.Parsed? ==> d.client == c.(requests := d.client.requests)
    ensures f.Parsed? ==>
      (d.threw <==> exists i | 0 <= i < |f.fields| :: HandlerThrows(c.handlers, throws, f.fields[i]))
    ensures f.Parsed? ==> var k := Reach(c.handlers, throws, f.fields);
      d.client.requests.Keys == c.requests.Keys - Names(f.fields[..k])
    ensures f.Parsed? && !d.threw ==> d.client.requests.Keys == c.requests.Keys - Names(f.fields)
    ensures f.Parsed? && d.threw ==> var k := Reach(c.handlers, throws, f.fields);
      k < |f.fields| && d.calls != [] && d.calls[|d.calls| - 1] == Invoke(f.fields[k].0, c.handlers[f.fields[k].0], f.fields[k].1)
    ensures f.Parsed? && (forall n | n in Names(f.fields) :: n !in c.handlers && n !in c.requests) ==>
      d == Delivery(c, [], false)
  {
    match f
    case Malformed => Delivery(c, [], true)
    case Parsed(fields) =>
      var k := Reach(c.handlers, throws, fields);
      var (reqs, calls) := Dispatch(c.handlers, c.requests, fields[..k]);
      if k < |fields| then
        var (name, payload) := fields[k];
        Delivery(c.(requests := reqs), calls + [Invoke(name, c.handlers[name], payload)], true)
      else
        assert fields[..k] == fields;
        DispatchIgnoresUnknownNames(c.handlers, c.requests, fields);
        Delivery(c.(requests := reqs), calls, false)
  }

  /** When no handler throws, a frame is the plain key-by-key dispatch. */
  lemma {:induction false} QuietFrameIsDispatch(c: Client, fields: seq<(Name, Json)>, throws: (HandlerId, Json) -> bool)
    requires forall i | 0 <= i < |fields| :: !HandlerThrows(c.handlers, throws, fields[i])
    ensures var r := Dispatch(c.handlers, c.requests, fields);
      OnMessage(c, Parsed(fields), throws) == Delivery(c.(requests := r.0), r.1, false)
  {
    assert fields[..Reach(c.handlers, throws, fields)] == fields;
  }

  /** A throwing handler leaves the request of its own key, and of every later key
      not named before it, pending: the frame's answer to them is lost. */
  lemma {:induction false} ThrowKeepsLaterRequests(c: Client, fields: seq<(Name, Json)>, throws: (HandlerId, Json) -> bool,
                                                   k: nat, n: Name)
    requires k < |fields| && HandlerThrows(c.handlers, throws, fields[k])
    requires n in c.requests && n in Names(fields[k..]) && n !in Names(fields[..k])
    ensures var d := OnMessage(c, Parsed(fields), throws);
      d.threw && n in d.client.requests && d.client.requests[n] == c.requests[n]
      && forall e | e in d.calls :: !(e.Resolve? && e.name == n)
  {
    var d := OnMessage(c, Parsed(fields), throws);
    var j := Reach(c.handlers, throws, fields);
    assert j <= k;
    assert Names(fields[..j]) <= Names(fields[..k]) by {
      forall x | x in Names(fields[..j]) ensures x in Names(fields[..k]) {
        var i :| 0 <= i < j && fields[..j][i].0 == x;
        assert fields[..k][i] == fields[..j][i];
      }
    }
    var r := Dispatch(c.handlers, c.requests, fields[..j]);
    assert d.calls == r.1 + [Invoke(fields[j].0, c.handlers[fields[j].0], fields[j].1)];
    forall e | e in d.calls ensures !(e.Resolve? && e.name == n) {
      if e in r.1 && e.Resolve? {
        assert FirstPayload(fields[..j], e.name).Some?;
      }
    }
  }

  /** Keys with neither a handler nor a pending request are ignored. */
  lemma {:induction false} DispatchIgnoresUnknownNames(handlers: map<Name, HandlerId>, requests: map<Name, PromiseId>,
                                                        fields: seq<(Name, Json)>)
    ensures (forall n | n in Names(fields) :: n !in handlers && n !in requests) ==>
      Dispatch(handlers, requests, fields) == (requests, [])
    decreases |fields|
  {
    if fields != [] && forall n | n in Names(fields) :: n !in handlers && n !in requests {
      assert Names(fields) == {fields[0].0} + Names(fields[1..]);
      assert fields[0].0 in Names(fields);
      assert requests - {fields[0].0} == requests;
      DispatchIgnoresUnknownNames(handlers, requests, fields[1..]);
      var rest := Dispatch(handlers, requests - {fields[0].0}, fields[1..]);
      assert rest == (requests, []);
      var none: seq<Call> := [];
      assert none + none + rest.1 == none;
      assert Dispatch(handlers, requests, fields) == (rest.0, none + none + rest.1);
    }
  }

  /** Handler invocations do not depend on the pending requests: the handler and
      request paths are decoupled. */
  function Invocations(calls: seq<Call>): (r: seq<Call>)
    ensures forall e | e in r :: e.Invoke? && e in calls
  {
    if calls == [] then []
    else (if calls[0].Invoke? then [calls[0]] else []) + Invocations(calls[1..])
  }

  /** Reference definition: one invocation per key that has a handler, in key order. */
  function HandlerCalls(handlers: map<Name, HandlerId>, fields: seq<(Name, Json)>): seq<Call> {
    if fields == [] then []
    else
      (if fields[0].0 in handlers then [Invoke(fields[0].0, handlers[fields[0].0], fields[0].1)] else [])
      + HandlerCalls(handlers, fields[1..])
  }

  lemma {:induction false} InvocationsDistribute(a: seq<Call>, b: seq<Call>)
    ensures Invocations(a + b) == Invocations(a) + Invocations(b)
    decreases |a|
  {
    if a != [] {
      assert (a + b)[0] == a[0];
      assert (a + b)[1..] == a[1..] + b;
      InvocationsDistribute(a[1..], b);
      var head := if a[0].Invoke? then [a[0]] else [];
      assert Invocations(a + b) == head + Invocations(a[1..] + b);
      assert Invocations(a) == head + Invocations(a[1..]);
    } else {
      assert a + b == b;
    }
  }

  /** Every key with a handler invokes it exactly once, in key order, whatever the
      pending requests are. */
  lemma {:induction false} DispatchInvokesHandlers(handlers: map<Name, HandlerId>, requests: map<Name, PromiseId>,
                                                    fields: seq<(Name, Json)>)
    ensures Invocations(Dispatch(handlers, requests, fields).1) == HandlerCalls(handlers, fields)
    decreases |fields|
  {
    if fields != [] {
      var (name, payload) := fields[0];
      var invoked := Invoked(handlers, name, payload);
      var resolved := Resolved(requests, name, payload);
      var rest := Dispatch(handlers, requests - {name}, fields[1..]);
      DispatchInvokesHandlers(handlers, requests - {name}, fields[1..]);
      InvocationsDistribute(invoked + resolved, rest.1);
      InvocationsDistribute(invoked, resolved);
      if invoked != [] { assert invoked[1..] == []; }
      if resolved != [] { assert resolved[1..] == []; }
    }
  }

  /** A sequence of inbound frames with no outbound calls in between. */
  function Receive(c: Client, frames: seq<Frame>, throws: (HandlerId, Json) -> bool): (r: (Client, seq<Call>))
    ensures r.0.handlers == c.handlers && r.0.outbox == c.outbox
    ensures r.0.requests.Keys <= c.requests.Keys
    ensures forall n | n in r.0.requests :: r.0.requests[n] == c.requests[n]
    ensures forall e | e in r.1 && e.Resolve? :: e.name in c.requests && e.promise == c.requests[e.name]
    ensures ResolvedNamesDistinct(r.1)
    decreases |frames|
  {
    if frames == [] then (c, [])
    else
      var d := OnMessage(c, frames[0], throws);
      var rest := Receive(d.client, frames[1..], throws);
      var calls := d.calls + rest.1;
      DeliveredRequestsGone(c, frames[0], throws);
      ResolvedAppend(d.calls, rest.1, d.client.requests);
      (rest.0, calls)
  }

  /** A request resolved by a frame is no longer pending afterwards. */
  lemma {:induction false} DeliveredRequestsGone(c: Client, f: Frame, throws: (HandlerId, Json) -> bool)
    ensures var d := OnMessage(c, f, throws);
      forall e | e in d.calls && e.Resolve? :: e.name !in d.client.requests
  {
    if f.Parsed? {
      var d := OnMessage(c, f, throws);
      var k := Reach(c.handlers, throws, f.fields);
      var r := Dispatch(c.handlers, c.requests, f.fields[..k]);
      forall e | e in d.calls && e.Resolve? ensures e.name !in d.client.requests {
        assert e in r.1;
        assert FirstPayload(f.fields[..k], e.name).Some?;
      }
    }
  }

  lemma {:induction false} ResolvedAppend(a: seq<Call>, b: seq<Call>, pending: map<Name, PromiseId>)
    requires ResolvedNamesDistinct(a) && ResolvedNamesDistinct(b)
    requires forall e | e in a && e.Resolve? :: e.name !in pending
    requires forall e | e in b && e.Resolve? :: e.name in pending
    ensures ResolvedNamesDistinct(a + b)
  {
    var calls := a + b;
    forall i, j | 0 <= i < j < |calls| && calls[i].Resolve? && calls[j].Resolve?
      ensures calls[i].name != calls[j].name
    {
      if j >= |a| && i < |a| {
        assert calls[i] in a;
        assert calls[j] in b;
      } else if i >= |a| {
        assert calls[i] == b[i - |a|] && calls[j] == b[j - |a|];
      } else {
        assert calls[i] == a[i] && calls[j] == a[j];
      }
    }
  }

  /** Once a frame has dispatched a key `n`, the request for `n` is gone: later frames
      carrying `n` reach only its handler, until a new `fetch`. */
  lemma {:induction false} ResolvedRequestIsDeleted(c: Client, fields: seq<(Name, Json)>, n: Name, frames: seq<Frame>,
                                                   throws: (HandlerId, Json) -> bool)
    requires n in Names(fields[..Reach(c.handlers, throws, fields)])
    ensures var d := OnMessage(c, Parsed(fields), throws);
      forall e | e in Receive(d.client, frames, throws).1 :: !(e.Resolve? && e.name == n)
  {
  }

  /** A second `fetch` for a name still pending orphans the first promise: no run of
      frames ever resolves it. */
  lemma {:induction false} SecondFetchOrphansFirst(c: Client, msg: Name, a1: Json, a2: Json, p1: PromiseId, p2: PromiseId,
                                frames: seq<Frame>, throws: (HandlerId, Json) -> bool)
    requires p1 != p2 && p1 !in c.requests.Values
    ensures var after := Fetch(Fetch(c, msg, a1, p1), msg, a2, p2);
      forall e | e in Receive(after, frames, throws).1 :: !(e.Resolve? && e.promise == p1)
  {
    var after := Fetch(Fetch(c, msg, a1, p1), msg, a2, p2);
    assert p1 !in after.requests.Values;
  }

  /** A malformed frame changes nothing and invokes nothing. */
  lemma {:induction false} MalformedFrameIsInert(c: Client, frames: seq<Frame>, throws: (HandlerId, Json) -> bool)
    ensures Receive(c, [Malformed] + frames, throws) == Receive(c, frames, throws)
  {
    assert ([Malformed] + frames)[1..] == frames;
    assert [] + Receive(c, frames, throws).1 == Receive(c, frames, throws).1;
  }
}
