/** The status page glue (web/static/socket.js): a `WSON` client subscribed to two
    server messages, and a liveness check armed once with `setTimeout`. Time is an
    abstract clock: every event carries the value `Date.now()` would return. */
module Page {
  import opened Wrappers
  import opened JsonValue
  import opened Wson

  /** The two callbacks the page registers. */
  const UpdateHandler: HandlerId := 0
  const KeepAliveHandler: HandlerId := 1

  /** The liveness check's delay in milliseconds. */
  const CheckDelay: int := 60000

  /** The check's threshold, in minutes. */
  const StaleMinutes: int := 3

  /** What the liveness check does when it runs. */
  datatype Effect = Reloaded | LoggedAlive

  /** The page. `title` and `duration` are the text of the two elements (`None`
      until the first `update` sets them); `effects` lists what the check did. */
  datatype Page = Page(
    wson: Client,
    loadedAt: int,
    lastKeepAlive: int,
    title: Option<Json>,
    duration: Option<Json>,
    checkDone: bool,
    effects: seq<Effect>)

  /** What happens to the page: a frame arriving, or the clock reaching `at`. */
  datatype Event = Arrive(at: int, frame: Frame) | Tick(at: int)

  /** The subscriptions the page makes, and no pending request (it never fetches). */
  predicate Subscribed(c: Client) {
    c.handlers == map["update" := UpdateHandler, "keep_alive" := KeepAliveHandler]
    && c.requests == map[]
  }

  /** Loading the script at time `now`: the client is created, `last_keep_alive` is
      the load time, the check is armed and the two handlers are registered. */
  function Load(now: int): (p: Page)
    ensures Subscribed(p.wson) && p.wson.outbox == []
    ensures p.lastKeepAlive == p.loadedAt == now
    ensures !p.checkDone && p.effects == [] && p.title == None && p.duration == None
  {
    var c := On(On(Init, "update", UpdateHandler), "keep_alive", KeepAliveHandler);
    assert c.handlers == map["update" := UpdateHandler, "keep_alive" := KeepAliveHandler];
    Page(c, now, now, None, None, false, [])
  }

  /** JavaScript's `ToNumber` on the values this page can meet; `None` is `NaN`.
      Strings, arrays and objects are read as `NaN` here. */
  function ToNumber(v: Json): (r: Option<int>)
    ensures v == Undefined ==> r == None
    ensures v.Num? ==> r == Some(v.n)
  {
    match v
    case Null => Some(0)
    case Bool(b) => Some(if b then 1 else 0)
    case Num(n) => Some(n)
    case _ => None
  }

  /** `a > b` on a value and a number literal: false whenever `a` converts to `NaN`. */
  function GreaterThan(a: Json, b: int): (r: bool)
    ensures r <==> ToNumber(a).Some? && ToNumber(a).value > b
  {
    match ToNumber(a)
    case None => false
    case Some(x) => x > b
  }

  /** The check's body at time `now`. `time_delta` is a number, and reading
      `.minute` off a number gives `undefined`, which is never greater than 3: the
      reload branch is dead and the check logs "Alive: OK" however long the server
      has been silent. */
  function LivenessCheck(now: int, lastKeepAlive: int): (e: Effect)
    ensures e == LoggedAlive
  {
    var timeDelta := Num(now - lastKeepAlive);
    assert Get(timeDelta, "minute") == Undefined;
    if GreaterThan(Get(timeDelta, "minute"), StaleMinutes) then Reloaded else LoggedAlive
  }

  /** `on_update(data)`: the title and duration elements get `data.title` and
      `data.duration`; reading a property of `null` or `undefined` throws (`None`). */
  function OnUpdate(p: Page, data: Json): (r: Option<Page>)
    ensures r.None? <==> data == Null || data == Undefined
    ensures r.Some? ==> r.value.title == Some(Get(data, "title")) && r.value.duration == Some(Get(data, "duration"))
    ensures r.Some? ==> r.value.(title := p.title, duration := p.duration) == p
  {
    if data == Null || data == Undefined then None
    else Some(p.(title := Some(Get(data, "title")), duration := Some(Get(data, "duration"))))
  }

  /** `on_keep_alive()`: only the time of the last keep-alive changes. */
  function OnKeepAlive(p: Page, now: int): (r: Page)
    ensures r.lastKeepAlive == now
    ensures r.(lastKeepAlive := p.lastKeepAlive) == p
  {
    p.(lastKeepAlive := now)
  }

  /** Which of the page's handlers throw: `on_update` on `null` or `undefined`. */
  predicate PageThrows(h: HandlerId, data: Json) {
    h == UpdateHandler && (data == Null || data == Undefined)
  }

  /** Runs the invocations a frame caused, in order; an exception thrown by a handler
      ends the frame (it propagates out of `onmessage`). */
  function RunCalls(p: Page, calls: seq<Call>, now: int): (r: Page)
    ensures r.wson == p.wson && r.loadedAt == p.loadedAt
    ensures r.checkDone == p.checkDone && r.effects == p.effects
    decreases |calls|
  {
    if calls == [] then p
    else match calls[0]
      case Resolve(_, _, _) => RunCalls(p, calls[1..], now)
      case Invoke(_, h, payload) =>
        if h == UpdateHandler then
          match OnUpdate(p, payload)
          case None => p
          case Some(q) => RunCalls(q, calls[1..], now)
        else if h == KeepAliveHandler then RunCalls(OnKeepAlive(p, now), calls[1..], now)
        else RunCalls(p, calls[1..], now)
  }

  /** The page's reaction to one event. The timer fires at the first tick at or after
      `CheckDelay` milliseconds from load, and never again. */
  function Step(p: Page, e: Event): (r: Page)
    ensures r.loadedAt == p.loadedAt
    ensures e.Tick? ==>
      r.wson == p.wson && r.lastKeepAlive == p.lastKeepAlive && r.title == p.title && r.duration == p.duration
    ensures !p.checkDone && e.Tick? && e.at >= p.loadedAt + CheckDelay ==>
      r.checkDone && r.effects == p.effects + [LivenessCheck(e.at, p.lastKeepAlive)]
    ensures p.checkDone || e.Arrive? || e.at < p.loadedAt + CheckDelay ==>
      r.checkDone == p.checkDone && r.effects == p.effects
  {
    match e
    case Arrive(at, frame) =>
      var d := OnMessage(p.wson, frame, PageThrows);
      RunCalls(p.(wson := d.client), d.calls, at)
    case Tick(at) =>
      if !p.checkDone && at >= p.loadedAt + CheckDelay then
        p.(checkDone := true, effects := p.effects + [LivenessCheck(at, p.lastKeepAlive)])
      else p
  }

  /** A frame arriving on a subscribed page keeps the subscriptions. */
  lemma {:induction false} ArriveKeepsSubscriptions(p: Page, at: int, f: Frame)
    requires Subscribed(p.wson)
    ensures Subscribed(Step(p, Arrive(at, f)).wson)
  {
    if f.Parsed? {
      assert OnMessage(p.wson, f, PageThrows).client.requests.Keys == {};
    }
  }

  /** Only `update` and `keep_alive` are subscribed: a frame carrying nothing but
      `progress` and `stop_playback` (or a malformed frame) leaves the page as it was. */
  lemma {:induction false} OtherMessagesInvokeNothing(p: Page, at: int, f: Frame)
    requires Subscribed(p.wson)
    requires f.Parsed? ==> forall n | n in Names(f.fields) :: n == "progress" || n == "stop_playback"
    ensures Step(p, Arrive(at, f)) == p
  {
    if f.Parsed? {
      forall n | n in Names(f.fields) ensures n !in p.wson.handlers && n !in p.wson.requests {
      }
      assert OnMessage(p.wson, f, PageThrows) == Delivery(p.wson, [], false);
    }
  }

  /** A `keep_alive` frame stamps the arrival time and changes nothing else on the page. */
  lemma {:induction false} KeepAliveFrameStamps(p: Page, at: int, payload: Json)
    requires Subscribed(p.wson)
    ensures Step(p, Arrive(at, Parsed([("keep_alive", payload)]))) == p.(lastKeepAlive := at)
  {
    var fields := [("keep_alive", payload)];
    var d := OnMessage(p.wson, Parsed(fields), PageThrows);
    assert Reach(p.wson.handlers, PageThrows, fields) == 1;
    assert fields[..1] == fields && fields[1..] == [];
    var rest := Dispatch(p.wson.handlers, p.wson.requests - {"keep_alive"}, fields[1..]);
    assert rest == (map[], []);
    var none: seq<Call> := [];
    assert Dispatch(p.wson.handlers, p.wson.requests, fields) == (map[], [Invoke("keep_alive", KeepAliveHandler, payload)] + none + none);
    assert d.client == p.wson;
    assert d.calls == [Invoke("keep_alive", KeepAliveHandler, payload)];
    var calls := [Invoke("keep_alive", KeepAliveHandler, payload)];
    assert calls[1..] == [];
    assert RunCalls(p, calls, at) == RunCalls(OnKeepAlive(p, at), [], at);
  }

  /** An `update` frame with an object payload copies its `title` and `duration`
      into the page and changes nothing else. */
  lemma {:induction false} UpdateFrameCopiesTrack(p: Page, at: int, payload: seq<(string, Json)>)
    requires Subscribed(p.wson)
    ensures Step(p, Arrive(at, Parsed([("update", Obj(payload))]))) ==
      p.(title := Some(Get(Obj(payload), "title")), duration := Some(Get(Obj(payload), "duration")))
  {
    var fields := [("update", Obj(payload))];
    var d := OnMessage(p.wson, Parsed(fields), PageThrows);
    assert Reach(p.wson.handlers, PageThrows, fields) == 1;
    assert fields[..1] == fields && fields[1..] == [];
    var rest := Dispatch(p.wson.handlers, p.wson.requests - {"update"}, fields[1..]);
    assert rest == (map[], []);
    var none: seq<Call> := [];
    assert Dispatch(p.wson.handlers, p.wson.requests, fields) == (map[], [Invoke("update", UpdateHandler, Obj(payload))] + none + none);
    assert d.client == p.wson;
    assert d.calls == [Invoke("update", UpdateHandler, Obj(payload))];
    var calls := [Invoke("update", UpdateHandler, Obj(payload))];
    assert calls[1..] == [];
    var q := OnUpdate(p, Obj(payload)).value;
    assert RunCalls(p, calls, at) == RunCalls(q, [], at);
  }

  /** A frame whose `update` payload is `null` stops at that handler's exception: a
      `keep_alive` later in the same frame is not run and the page is unchanged. */
  lemma {:induction false} NullUpdateAbortsFrame(p: Page, at: int, payload: Json)
    requires Subscribed(p.wson)
    ensures Step(p, Arrive(at, Parsed([("update", Null), ("keep_alive", payload)]))) == p
  {
    var fields := [("update", Null), ("keep_alive", payload)];
    assert HandlerThrows(p.wson.handlers, PageThrows, fields[0]);
    assert Reach(p.wson.handlers, PageThrows, fields) == 0;
    assert fields[..0] == [];
    var d := OnMessage(p.wson, Parsed(fields), PageThrows);
    assert d.calls == [Invoke("update", UpdateHandler, Null)];
    assert d.client == p.wson;
  }

  /** The page after a run of events. */
  function Run(p: Page, events: seq<Event>): (r: Page)
    ensures r.loadedAt == p.loadedAt
    decreases |events|
  {
    if events == [] then p else Run(Step(p, events[0]), events[1..])
  }

  /** Whatever the server sends and however the clock moves, the check runs at most
      once, and exactly when the clock has reached `CheckDelay` after load; it never
      reloads the page. */
  lemma {:induction false} CheckRunsOnceAndNeverReloads(p: Page, events: seq<Event>)
    requires p.effects == (if p.checkDone then [LoggedAlive] else [])
    ensures var r := Run(p, events);
      r.effects == (if r.checkDone then [LoggedAlive] else [])
    ensures var r := Run(p, events);
      r.checkDone <==> p.checkDone || exists i | 0 <= i < |events| :: events[i].Tick? && events[i].at >= p.loadedAt + CheckDelay
    decreases |events|
  {
    if events != [] {
      var q := Step(p, events[0]);
      CheckRunsOnceAndNeverReloads(q, events[1..]);
      var r := Run(p, events);
      assert r == Run(q, events[1..]);
      var fire := events[0].Tick? && events[0].at >= p.loadedAt + CheckDelay;
      if r.checkDone && !p.checkDone && !fire {
        var j :| 0 <= j < |events[1..]| && events[1..][j].Tick? && events[1..][j].at >= p.loadedAt + CheckDelay;
        assert events[j + 1] == events[1..][j];
      }
      if !r.checkDone {
        forall i | 0 <= i < |events| ensures !(events[i].Tick? && events[i].at >= p.loadedAt + CheckDelay) {
          if i > 0 { assert events[i] == events[1..][i - 1]; }
        }
      }
    }
  }

  /** From page load on, the check never reloads the page. */
  lemma {:induction false} PageNeverReloads(now: int, events: seq<Event>)
    ensures Reloaded !in Run(Load(now), events).effects
  {
    CheckRunsOnceAndNeverReloads(Load(now), events);
  }
}
