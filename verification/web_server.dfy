/** The server half of the status-page protocol (web/server.py): the registry of open
    WebSocket connections `ws_clients`, the single-key envelopes sent to them, the
    broadcasts triggered by track changes, and each connection's keep-alive coroutine.
    The event loop is sequential; each event runs one callback to completion. */
module WebServer {
  import opened Wrappers
  import opened JsonValue
  import opened Songs
  import opened SeqUtil

  /** One `WebSocketHandler` object. */
  type ConnId = nat

  /** `KEEP_ALIVE_INTERVAL`, in seconds. */
  const KeepAliveInterval: nat := 60

  /** The keep-alive coroutine is asleep (it will send when it wakes) or has returned. */
  datatype Task = Sleeping | Finished

  /** One connection. `active` is the handler's flag, `writable` whether the transport
      still accepts writes, `sent` the lines written, `tried` every `send` call with the
      value of `active` at the time. */
  datatype Conn = Conn(active: bool, writable: bool, task: Task, sent: seq<Json>, tried: seq<(Json, bool)>)

  datatype Server = Server(clients: seq<ConnId>, conns: map<ConnId, Conn>)

  const Empty: Server := Server([], map[])

  /** The number of `keep_alive` sends attempted on a connection after it was closed. */
  function LateKeepAlives(tried: seq<(Json, bool)>): (n: nat)
    ensures n <= |tried|
  {
    if tried == [] then 0
    else
      var late := if tried[|tried| - 1] == (Envelope("keep_alive", EmptyObject), false) then 1 else 0;
      LateKeepAlives(tried[..|tried| - 1]) + late
  }

  /** The keep-alive discipline of one connection: the coroutine only sleeps while no
      late `keep_alive` has been attempted, and at most one ever is. */
  predicate KeepAliveOk(c: Conn) {
    LateKeepAlives(c.tried) <= 1
    && (c.task == Sleeping ==> LateKeepAlives(c.tried) == 0)
    && (c.active ==> LateKeepAlives(c.tried) == 0)
  }

  /** The registry lists exactly the active connections, once each. */
  predicate Valid(s: Server) {
    Distinct(s.clients)
    && (forall k | k in s.clients :: k in s.conns)
    && (forall k | k in s.conns :: (k in s.clients <==> s.conns[k].active) && KeepAliveOk(s.conns[k]))
  }

  /** `on_close`: clears `active` and removes the connection from the registry; a second
      call finds nothing to remove. */
  function OnClose(s: Server, id: ConnId): (r: Server)
    requires id in s.conns
    ensures r.conns == s.conns[id := s.conns[id].(active := false)]
    ensures r.clients == RemoveFirst(s.clients, id)
  {
    Server(RemoveFirst(s.clients, id), s.conns[id := s.conns[id].(active := false)])
  }

  /** A second `on_close` (after a failed write, say) changes nothing more. */
  lemma {:induction false} OnCloseTwiceIsHarmless(s: Server, id: ConnId)
    requires Valid(s) && id in s.conns
    ensures OnClose(OnClose(s, id), id) == OnClose(s, id)
  {
    RemoveFirstDistinct(s.clients, id);
  }

  /** `send(msg, data)`: one line `{msg: data}` is written; if the transport is closed
      the write raises `WebSocketClosedError` and `on_close` runs instead. */
  function Send(s: Server, id: ConnId, msg: string, data: Json): (r: Server)
    requires id in s.conns
    ensures r.conns.Keys == s.conns.Keys && forall k | k in s.conns && k != id :: r.conns[k] == s.conns[k]
    ensures r.conns[id].tried == s.conns[id].tried + [(Envelope(msg, data), s.conns[id].active)]
    ensures r.conns[id].task == s.conns[id].task && r.conns[id].writable == s.conns[id].writable
    ensures s.conns[id].writable ==>
      r.clients == s.clients && r.conns[id].sent == s.conns[id].sent + [Envelope(msg, data)]
      && r.conns[id].active == s.conns[id].active
    ensures !s.conns[id].writable ==>
      r.clients == RemoveFirst(s.clients, id) && r.conns[id].sent == s.conns[id].sent && !r.conns[id].active
  {
    var c := s.conns[id];
    var line := Envelope(msg, data);
    var c1 := c.(tried := c.tried + [(line, c.active)]);
    if c.writable then s.(conns := s.conns[id := c1.(sent := c.sent + [line])])
    else OnClose(s.(conns := s.conns[id := c1]), id)
  }

  /** What `get_current_state` hands to `open` as the server imports it: `Song.to_dict`
      of the older record class, which has no branch for "no track" and reads `id`
      off `None` (`AttributeError`, here `None`). */
  function CurrentStateAsWritten(track: Option<Song>, progress: Json): (r: Option<(Json, Json)>)
    ensures r.None? <==> track.None?
    ensures track.Some? ==> r == Some((DictToJson(ToDict(track)), progress))
  {
    match track
    case None => None
    case Some(_) => Some((DictToJson(ToDict(track)), progress))
  }

  /** `get_current_state` with the placeholder dictionary the record class in
      core/models.py provides for "no track". */
  function CurrentState(track: Option<Song>, progress: Json): (r: (Json, Json))
    ensures track.Some? ==> Some(r) == CurrentStateAsWritten(track, progress)
    ensures track.None? ==> Get(r.0, "title") == Str("") && Get(r.0, "duration") == Num(1)
    ensures r.1 == progress
  {
    (DictToJson(ToDict(track)), progress)
  }

  /** `initialize` followed by `open` for a new handler: the keep-alive coroutine is
      started, the client is appended to the registry, then `update` and `progress`
      are sent, in that order. */
  function Connect(s: Server, id: ConnId, track: Option<Song>, progress: Json): (r: Server)
    requires id !in s.conns
    ensures r.clients == s.clients + [id]
    ensures id in r.conns && r.conns == s.conns[id := r.conns[id]]
    ensures var (t, p) := CurrentState(track, progress);
      r.conns[id].sent == [Envelope("update", t), Envelope("progress", p)]
    ensures r.conns[id].active && r.conns[id].writable && r.conns[id].task == Sleeping
  {
    var s1 := Server(s.clients + [id], s.conns[id := Conn(true, true, Sleeping, [], [])]);
    var (t, p) := CurrentState(track, progress);
    Send(Send(s1, id, "update", t), id, "progress", p)
  }

  /** `initialize` followed by `open` as written: with nothing playing,
      `get_current_state` raises inside `open` after the client was appended, so the
      new handler is registered with its coroutine running and has been sent
      nothing. With a track it is `Connect`. */
  function ConnectAsWritten(s: Server, id: ConnId, track: Option<Song>, progress: Json): (r: Server)
    requires id !in s.conns
    ensures r.clients == s.clients + [id]
    ensures id in r.conns && r.conns == s.conns[id := r.conns[id]]
    ensures r.conns[id].active && r.conns[id].writable && r.conns[id].task == Sleeping
    ensures track.Some? ==> r == Connect(s, id, track, progress)
    ensures track.None? ==> r.conns[id].sent == [] && r.conns[id].tried == []
  {
    var s1 := Server(s.clients + [id], s.conns[id := Conn(true, true, Sleeping, [], [])]);
    match CurrentStateAsWritten(track, progress)
    case None => s1
    case Some((t, p)) => Send(Send(s1, id, "update", t), id, "progress", p)
  }

  /** With nothing playing, a page connecting to the server as written is registered
      but receives neither `update` nor `progress`, where the corrected `open` sends
      both. */
  lemma {:induction false} OpenWithoutTrackRaises(s: Server, id: ConnId, progress: Json)
    requires id !in s.conns
    ensures CurrentStateAsWritten(None, progress).None?
    ensures var r := ConnectAsWritten(s, id, None, progress);
      id in r.clients && r.conns[id].sent == []
    ensures var r := Connect(s, id, None, progress);
      |r.conns[id].sent| == 2 && r.conns[id].sent[0].fields[0].0 == "update"
  {
  }

  /** The transport of `id` closes; Tornado then runs `on_close`. */
  function Disconnect(s: Server, id: ConnId): (r: Server)
    requires id in s.conns
    ensures r.clients == RemoveFirst(s.clients, id)
    ensures r.conns.Keys == s.conns.Keys && !r.conns[id].active && !r.conns[id].writable
  {
    OnClose(s.(conns := s.conns[id := s.conns[id].(writable := false)]), id)
  }

  /** The transport of `id` is gone but Tornado has not noticed yet: writes fail. */
  function Break(s: Server, id: ConnId): (r: Server)
    requires id in s.conns
    ensures r.clients == s.clients && r.conns.Keys == s.conns.Keys && !r.conns[id].writable
  {
    s.(conns := s.conns[id := s.conns[id].(writable := false)])
  }

  /** The keep-alive coroutine wakes from its `KEEP_ALIVE_INTERVAL` sleep: it sends
      `keep_alive {}` without looking at `active`, then tests `active` to decide
      whether to sleep again. */
  function WakeKeepAlive(s: Server, id: ConnId): (r: Server)
    requires id in s.conns
    ensures r.conns.Keys == s.conns.Keys
    ensures s.conns[id].task == Finished ==> r == s
    ensures s.conns[id].task == Sleeping ==>
      r.conns[id].tried == s.conns[id].tried + [(Envelope("keep_alive", EmptyObject), s.conns[id].active)]
      && (r.conns[id].task == Sleeping <==> r.conns[id].active)
  {
    if s.conns[id].task == Finished then s
    else
      var s1 := Send(s, id, "keep_alive", EmptyObject);
      var c := s1.conns[id];
      s1.(conns := s1.conns[id := c.(task := if c.active then Sleeping else Finished)])
  }

  /** The `for c in self.ws_clients` loop of a broadcast, from list position `i`:
      Python's list iterator reads `clients[i]` from the list as it is now, so a client
      that removes itself shifts the next one into the position already visited. */
  function BroadcastFrom(s: Server, i: nat, msg: string, data: Json): (r: Server)
    requires forall k | k in s.clients :: k in s.conns
    ensures r.conns.Keys == s.conns.Keys && |r.clients| <= |s.clients|
    ensures forall k | k in r.clients :: k in s.clients && k in r.conns
    decreases |s.clients| - i
  {
    if i >= |s.clients| then s
    else
      var s1 := Send(s, s.clients[i], msg, data);
      BroadcastFrom(s1, i + 1, msg, data)
  }

  function Broadcast(s: Server, msg: string, data: Json): (r: Server)
    requires forall k | k in s.clients :: k in s.conns
    ensures r.conns.Keys == s.conns.Keys
  {
    BroadcastFrom(s, 0, msg, data)
  }

  /** `update_state(track)`: `update` with the track's dictionary, or `stop_playback`
      with `{}` when nothing plays. */
  function UpdateState(s: Server, track: Option<Song>): (r: Server)
    requires forall k | k in s.clients :: k in s.conns
    ensures track.Some? ==> r == Broadcast(s, "update", DictToJson(ToDict(track)))
    ensures track.None? ==> r == Broadcast(s, "stop_playback", EmptyObject)
  {
    match track
    case Some(_) => Broadcast(s, "update", DictToJson(ToDict(track)))
    case None => Broadcast(s, "stop_playback", EmptyObject)
  }

  /** `r` holds exactly one more line, `line`, than `s` for each connection in `to`,
      and the same lines for every other connection. */
  predicate SentTo(s: Server, r: Server, to: seq<ConnId>, line: Json)
    requires r.conns.Keys == s.conns.Keys
  {
    forall k | k in s.conns :: r.conns[k].sent == s.conns[k].sent + (if k in to then [line] else [])
  }

  /** When every registered client can be written to, a broadcast writes exactly one
      envelope to each of them and leaves the registry and everyone else alone. */
  lemma {:induction false} BroadcastReachesEveryone(s: Server, i: nat, msg: string, data: Json)
    requires forall k | k in s.clients :: k in s.conns && s.conns[k].writable
    requires Distinct(s.clients) && i <= |s.clients|
    ensures var r := BroadcastFrom(s, i, msg, data);
      r.clients == s.clients && SentTo(s, r, s.clients[i..], Envelope(msg, data))
    decreases |s.clients| - i
  {
    if i < |s.clients| {
      var id := s.clients[i];
      DistinctSplit(s.clients, i);
      var s1 := Send(s, id, msg, data);
      BroadcastReachesEveryone(s1, i + 1, msg, data);
      SentToCompose(s, s1, BroadcastFrom(s1, i + 1, msg, data), id, s.clients[i + 1..], Envelope(msg, data));
    }
  }

  /** The rest of a duplicate-free list from position `i` is its element at `i`
      followed by the others, none of them equal to it. */
  lemma {:induction false} DistinctSplit<T>(xs: seq<T>, i: nat)
    requires Distinct(xs) && i < |xs|
    ensures xs[i..] == [xs[i]] + xs[i + 1..] && xs[i] !in xs[i + 1..]
  {
    assert forall j | i + 1 <= j < |xs| :: xs[j] != xs[i];
  }

  /** One send to `id`, then sends to the connections `rest` that exclude `id`. */
  lemma {:induction false} SentToCompose(s: Server, s1: Server, r: Server, id: ConnId, rest: seq<ConnId>, line: Json)
    requires s1.conns.Keys == s.conns.Keys && r.conns.Keys == s.conns.Keys && id in s.conns && id !in rest
    requires s1.conns[id].sent == s.conns[id].sent + [line]
    requires forall k | k in s.conns && k != id :: s1.conns[k].sent == s.conns[k].sent
    requires SentTo(s1, r, rest, line)
    ensures SentTo(s, r, [id] + rest, line)
  {
    forall k | k in s.conns
      ensures r.conns[k].sent == s.conns[k].sent + (if k in [id] + rest then [line] else [])
    {
      assert k in [id] + rest <==> k == id || k in rest;
    }
  }

  /** A failing client drops out of the list being iterated, so the client after it
      is skipped in that broadcast: with clients 1, 2, 3 and 1 unwritable, client 2
      receives nothing and client 3 receives the update. */
  lemma {:induction false} BroadcastSkipsNextAfterFailure(c1: Conn, c2: Conn, c3: Conn, msg: string, data: Json)
    requires !c1.writable && c2.writable && c3.writable
    ensures var s := Server([1, 2, 3], map[1 := c1, 2 := c2, 3 := c3]);
      var r := Broadcast(s, msg, data);
      r.clients == [2, 3] && r.conns[2].sent == c2.sent && r.conns[3].sent == c3.sent + [Envelope(msg, data)]
  {
    var s := Server([1, 2, 3], map[1 := c1, 2 := c2, 3 := c3]);
    FailingHeadDropsOut(s, msg, data);
    var s1 := Send(s, 1, msg, data);
    LastOfTwoReceives(s1, msg, data);
  }

  /** The first client fails: it leaves the list, and the loop goes on at position 1,
      where the third client now sits. */
  lemma {:induction false} FailingHeadDropsOut(s: Server, msg: string, data: Json)
    requires s.clients == [1, 2, 3] && s.conns.Keys == {1, 2, 3} && !s.conns[1].writable
    ensures var s1 := Send(s, 1, msg, data);
      s1.clients == [2, 3] && s1.conns.Keys == {1, 2, 3}
      && s1.conns[2] == s.conns[2] && s1.conns[3] == s.conns[3]
      && Broadcast(s, msg, data) == BroadcastFrom(s1, 1, msg, data)
  {
    assert s.clients[0] == 1;
    assert RemoveFirst([1, 2, 3], 1) == [2, 3] by {
      assert IndexOf([1, 2, 3], 1) == 0;
      assert [1, 2, 3][1..] == [2, 3];
    }
  }

  /** With two clients left and the loop at position 1, only the second is written to. */
  lemma {:induction false} LastOfTwoReceives(s1: Server, msg: string, data: Json)
    requires s1.clients == [2, 3] && 2 in s1.conns && 3 in s1.conns && s1.conns[3].writable
    ensures var r := BroadcastFrom(s1, 1, msg, data);
      r.clients == [2, 3] && r.conns[2] == s1.conns[2]
      && r.conns[3].sent == s1.conns[3].sent + [Envelope(msg, data)]
  {
    var s2 := Send(s1, 3, msg, data);
    assert s1.clients[1] == 3;
    assert BroadcastFrom(s1, 1, msg, data) == BroadcastFrom(s2, 2, msg, data);
    assert BroadcastFrom(s2, 2, msg, data) == s2;
  }

  /** Everything that can happen to the server. */
  datatype Event =
    | Open(id: ConnId, track: Option<Song>, progress: Json)
    | Close(id: ConnId)
    | Lose(id: ConnId)
    | Wake(id: ConnId)
    | TrackChanged(track: Option<Song>)

  /** One event; events naming unknown connections (or reopening a known one) do
      nothing, since every connection is a new handler object. */
  function Step(s: Server, e: Event): (r: Server)
    requires Valid(s)
    ensures e.Open? && e.id in s.conns ==> r == s
    ensures (e.Close? || e.Lose? || e.Wake?) && e.id !in s.conns ==> r == s
  {
    match e
    case Open(id, track, progress) => if id in s.conns then s else Connect(s, id, track, progress)
    case Close(id) => if id in s.conns then Disconnect(s, id) else s
    case Lose(id) => if id in s.conns then Break(s, id) else s
    case Wake(id) => if id in s.conns then WakeKeepAlive(s, id) else s
    case TrackChanged(track) => UpdateState(s, track)
  }

  lemma {:induction false} LateKeepAlivesAppend(tried: seq<(Json, bool)>, t: (Json, bool))
    ensures LateKeepAlives(tried + [t]) ==
      LateKeepAlives(tried) + (if t == (Envelope("keep_alive", EmptyObject), false) then 1 else 0)
  {
    assert (tried + [t])[..|tried|] == tried;
  }

  /** A send keeps the server valid. */
  lemma {:induction false} SendValid(s: Server, id: ConnId, msg: string, data: Json)
    requires Valid(s) && id in s.conns
    requires msg != "keep_alive" || !s.conns[id].active || s.conns[id].task == Sleeping
    requires msg == "keep_alive" && !s.conns[id].active ==> s.conns[id].task == Sleeping
    ensures var r := Send(s, id, msg, data);
      Distinct(r.clients) && (forall k | k in r.clients :: k in r.conns)
      && (forall k | k in r.conns :: (k in r.clients <==> r.conns[k].active))
      && (forall k | k in r.conns && k != id :: KeepAliveOk(r.conns[k]))
      && LateKeepAlives(r.conns[id].tried) == LateKeepAlives(s.conns[id].tried)
           + (if (Envelope(msg, data), s.conns[id].active) == (Envelope("keep_alive", EmptyObject), false) then 1 else 0)
  {
    RemoveFirstDistinct(s.clients, id);
    LateKeepAlivesAppend(s.conns[id].tried, (Envelope(msg, data), s.conns[id].active));
  }

  /** A send of anything but `keep_alive` keeps the server valid. */
  lemma {:induction false} SendOtherValid(s: Server, id: ConnId, msg: string, data: Json)
    requires Valid(s) && id in s.conns && msg != "keep_alive"
    ensures Valid(Send(s, id, msg, data))
  {
    SendValid(s, id, msg, data);
    assert Envelope(msg, data).fields[0].0 == msg;
    var r := Send(s, id, msg, data);
    assert LateKeepAlives(r.conns[id].tried) == LateKeepAlives(s.conns[id].tried);
    assert KeepAliveOk(r.conns[id]);
  }

  lemma {:induction false} ConnectValid(s: Server, id: ConnId, track: Option<Song>, progress: Json)
    requires Valid(s) && id !in s.conns
    ensures Valid(Connect(s, id, track, progress))
  {
    var s1 := Server(s.clients + [id], s.conns[id := Conn(true, true, Sleeping, [], [])]);
    AppendDistinct(s.clients, id);
    assert Valid(s1);
    var (t, p) := CurrentState(track, progress);
    SendOtherValid(s1, id, "update", t);
    SendOtherValid(Send(s1, id, "update", t), id, "progress", p);
  }

  lemma {:induction false} DisconnectValid(s: Server, id: ConnId)
    requires Valid(s) && id in s.conns
    ensures Valid(Disconnect(s, id))
  {
    RemoveFirstDistinct(s.clients, id);
  }

  lemma {:induction false} WakeValid(s: Server, id: ConnId)
    requires Valid(s) && id in s.conns
    ensures Valid(WakeKeepAlive(s, id))
  {
    if s.conns[id].task == Sleeping {
      SendValid(s, id, "keep_alive", EmptyObject);
    }
  }

  /** Every event keeps the registry equal to the set of active connections, once
      each, and keeps the keep-alive discipline. */
  lemma {:induction false} StepValid(s: Server, e: Event)
    requires Valid(s)
    ensures Valid(Step(s, e))
  {
    match e
    case Open(id, track, progress) =>
      if id !in s.conns { ConnectValid(s, id, track, progress); }
    case Close(id) =>
      if id in s.conns { DisconnectValid(s, id); }
    case Lose(id) =>
    case Wake(id) =>
      if id in s.conns { WakeValid(s, id); }
    case TrackChanged(track) =>
      var msg := if track.Some? then "update" else "stop_playback";
      var data := if track.Some? then DictToJson(ToDict(track)) else EmptyObject;
      BroadcastValid(s, 0, msg, data);
  }

  /** A broadcast keeps the server valid: the broadcast messages are never `keep_alive`. */
  lemma {:induction false} BroadcastValid(s: Server, i: nat, msg: string, data: Json)
    requires Valid(s) && msg != "keep_alive"
    ensures Valid(BroadcastFrom(s, i, msg, data))
    decreases |s.clients| - i
  {
    if i < |s.clients| {
      var id := s.clients[i];
      SendOtherValid(s, id, msg, data);
      BroadcastValid(Send(s, id, msg, data), i + 1, msg, data);
    }
  }

  /** The server after a run of events. */
  function Run(s: Server, events: seq<Event>): (r: Server)
    requires Valid(s)
    ensures Valid(r)
    decreases |events|
  {
    if events == [] then s
    else
      StepValid(s, events[0]);
      Run(Step(s, events[0]), events[1..])
  }

  /** However the events interleave, each connection's keep-alive coroutine attempts
      at most one `keep_alive` after the connection was closed, and then stops. */
  lemma {:induction false} AtMostOneKeepAliveAfterClose(events: seq<Event>, id: ConnId)
    ensures var r := Run(Empty, events);
      id in r.conns ==>
        LateKeepAlives(r.conns[id].tried) <= 1 && (LateKeepAlives(r.conns[id].tried) == 1 ==> r.conns[id].task == Finished)
  {
  }
}
