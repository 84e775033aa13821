/**
 * The server's in-memory device/climate state, its REST mutators, the
 * WebSocket fan-out and command handler, and the weather refresh that writes
 * the climate field.
 *
 * One `Home` object stands for the module-level `state`, `lastWeatherFetch`
 * and the WebSocket server's client set; each connected client is a
 * `Channel` with an open flag (`readyState === OPEN`) and the list of
 * messages sent to it. Messages are kept as values; `JSON.stringify` is not
 * modelled.
 */
module Server {
  import opened Common
  import opened Js
  import opened Weather

  /** `{...state}`: the full device and climate state. */
  datatype Snapshot = Snapshot(
    lightOn: bool,
    fanSpeed: int,
    tankLevel: int,
    pumpOn: bool,
    smokeDetected: bool,
    climate: Climate)

  /** The defaults of lines 44-51. */
  const DefaultSnapshot: Snapshot := Snapshot(false, 0, 60, false, false, InitialClimate)

  /** Server-to-client messages: `{type:"status_update", ...state}`,
      `{type:"device", device:"light", state}` and `{type:"device", device:"fan", speed}`. */
  datatype Message = StatusUpdate(state: Snapshot) | LightDevice(on: bool) | FanDevice(speed: int)

  /** A client-to-server frame: one `JSON.parse` rejects, or the fields
      `type`, `device`, `state` and `speed` of what it parsed (all Undefined
      when the parsed value is not an object). */
  datatype Inbound = Malformed | Parsed(kind: Value, device: Value, state: Value, speed: Value)

  /** What a recognised command asks for; the fan speed is already clamped. */
  datatype Command = SetLight(on: bool) | SetFan(speed: int) | Ignore

  /** REST replies: `{success:true, lightOn}`, `{success:true, fanSpeed}`,
      `{success:true}`, or a 400 with its error text. */
  datatype Reply = LightSet(lightOn: bool) | FanSet(fanSpeed: int) | Updated | BadRequest(error: string)

  /** Lines 252-259: which state change an inbound frame causes. A fan speed
      is accepted when it is any integer and clamped into 0..5; anything that
      is not a light command with a boolean state or a fan command with an
      integer speed is ignored. */
  function DecodeCommand(m: Inbound): (c: Command)
    ensures c.SetLight? <==>
      m.Parsed? && m.kind == Str("command") && m.device == Str("light") && m.state.Bool?
    ensures c.SetLight? ==> c.on == m.state.b
    ensures c.SetFan? <==>
      m.Parsed? && m.kind == Str("command") && m.device == Str("fan") && IsInteger(m.speed)
    ensures c.SetFan? ==> 0 <= c.speed <= 5
    ensures c.SetFan? && 0.0 <= m.speed.n.x <= 5.0 ==> c.speed as real == m.speed.n.x
    ensures c.SetFan? && m.speed.n.x > 5.0 ==> c.speed == 5
    ensures c.SetFan? && m.speed.n.x < 0.0 ==> c.speed == 0
  {
    match m
    case Malformed => Ignore
    case Parsed(kind, device, st, speed) =>
      if kind != Str("command") then Ignore
      else if device == Str("light") && st.Bool? then SetLight(st.b)
      else if device == Str("fan") && IsInteger(speed) then SetFan(Clamp(0, 5, speed.n.x.Floor))
      else Ignore
  }

  /** Line 219: the stored tank level for a numeric `tankLevel`, rounded and
      clamped into 0..100. */
  function TankLevelFrom(n: Num): (r: int)
    ensures 0 <= r <= 100
    ensures n.PosInf? ==> r == 100
    ensures n.NegInf? ==> r == 0
    ensures n.Finite? && 0.0 <= n.x <= 100.0 ==> r as real - 0.5 <= n.x < r as real + 0.5
    ensures n.Finite? && n.x < 0.0 ==> r == 0
    ensures n.Finite? && n.x > 100.0 ==> r == 100
  {
    match n
    case Finite(x) => Clamp(0, 100, Round(x))
    case PosInf => 100
    case NegInf => 0
  }

  /** Lines 219-221: merge one telemetry submission. Only a number changes
      the tank level and only a boolean changes the pump or smoke flag;
      the light, the fan and the climate are never touched. */
  function ApplyTelemetry(s: Snapshot, tankLevel: Value, pumpOn: Value, smokeDetected: Value): (r: Snapshot)
    ensures r.lightOn == s.lightOn && r.fanSpeed == s.fanSpeed && r.climate == s.climate
    ensures r.tankLevel == if tankLevel.Number? then TankLevelFrom(tankLevel.n) else s.tankLevel
    ensures r.pumpOn == if pumpOn.Bool? then pumpOn.b else s.pumpOn
    ensures r.smokeDetected == if smokeDetected.Bool? then smokeDetected.b else s.smokeDetected
    ensures 0 <= s.tankLevel <= 100 ==> 0 <= r.tankLevel <= 100
  {
    s.(tankLevel := if tankLevel.Number? then TankLevelFrom(tankLevel.n) else s.tankLevel,
       pumpOn := if pumpOn.Bool? then pumpOn.b else s.pumpOn,
       smokeDetected := if smokeDetected.Bool? then smokeDetected.b else s.smokeDetected)
  }

  /** Line 199: the REST fan guard accepts exactly the integers 0..5. */
  predicate ValidFanSpeed(v: Value) {
    IsInteger(v) && 0.0 <= v.n.x <= 5.0
  }

  /** A WebSocket client as the server sees it. */
  class Channel {
    var open: bool
    var outbox: seq<Message>

    constructor ()
      ensures open && outbox == []
    {
      open := true;
      outbox := [];
    }

    /** The transport starts closing the socket: `readyState` leaves OPEN. */
    method BeginClose()
      modifies this
      ensures !open && outbox == old(outbox)
    {
      open := false;
    }
  }

  /** No client appears twice in the registry (the library keeps a `Set`). */
  ghost predicate Distinct(chs: seq<Channel>) {
    forall i, j :: 0 <= i < j < |chs| ==> chs[i] != chs[j]
  }

  /** `m` went to every open channel once and to no other channel, and no
      channel's state otherwise changed. */
  twostate predicate SentToOpen(chs: seq<Channel>, m: Message)
    reads set c | c in chs
  {
    forall k :: 0 <= k < |chs| ==>
      && chs[k].open == old(chs[k].open)
      && chs[k].outbox == (if old(chs[k].open) then old(chs[k].outbox) + [m] else old(chs[k].outbox))
  }

  /** Nothing was sent to any channel. */
  twostate predicate NothingSent(chs: seq<Channel>)
    reads set c | c in chs
  {
    forall k :: 0 <= k < |chs| ==> chs[k].open == old(chs[k].open) && chs[k].outbox == old(chs[k].outbox)
  }

  class Home {
    var lightOn: bool
    var fanSpeed: int
    var tankLevel: int
    var pumpOn: bool
    var smokeDetected: bool
    var climate: Climate
    var lastWeatherFetch: int
    var clients: seq<Channel>

    ghost predicate Valid()
      reads this
    {
      0 <= fanSpeed <= 5 && 0 <= tankLevel <= 100 && Distinct(clients)
    }

    /** `{...state}`. */
    function State(): Snapshot
      reads this
    {
      Snapshot(lightOn, fanSpeed, tankLevel, pumpOn, smokeDetected, climate)
    }

    function WeatherCache(): Cache
      reads this
    {
      Cache(climate, lastWeatherFetch)
    }

    /** Process start: the defaults of lines 44-53, no fetch yet, no clients. */
    constructor ()
      ensures Valid()
      ensures State() == DefaultSnapshot && WeatherCache() == InitialCache && clients == []
    {
      lightOn, fanSpeed, tankLevel, pumpOn, smokeDetected := false, 0, 60, false, false;
      climate := InitialClimate;
      lastWeatherFetch := 0;
      clients := [];
    }

    /** `broadcastWS` (lines 232-237). */
    method Broadcast(m: Message)
      requires Valid()
      modifies set c | c in clients
      ensures SentToOpen(clients, m)
    {
      var i := 0;
      while i < |clients|
        invariant 0 <= i <= |clients|
        invariant forall k :: 0 <= k < |clients| ==> clients[k].open == old(clients[k].open)
        invariant forall k :: 0 <= k < i ==>
          clients[k].outbox == (if old(clients[k].open) then old(clients[k].outbox) + [m] else old(clients[k].outbox))
        invariant forall k :: i <= k < |clients| ==> clients[k].outbox == old(clients[k].outbox)
      {
        var c := clients[i];
        if c.open {
          c.outbox := c.outbox + [m];
        }
        i := i + 1;
      }
    }

    /** A new connection (line 239-242): the library registers the client,
        then the server sends it the full state before anything else. */
    method Connect() returns (ch: Channel)
      requires Valid()
      modifies this
      ensures Valid() && fresh(ch)
      ensures clients == old(clients) + [ch]
      ensures ch.open && ch.outbox == [StatusUpdate(State())]
      ensures State() == old(State()) && WeatherCache() == old(WeatherCache())
    {
      ch := new Channel();
      clients := clients + [ch];
      ch.outbox := ch.outbox + [StatusUpdate(State())];
    }

    /** The close event: the library drops the client from its set. */
    method Disconnect(ch: Channel)
      requires Valid()
      modifies this, ch
      ensures Valid() && !ch.open && ch.outbox == old(ch.outbox)
      ensures ch !in clients
      ensures forall c :: c in old(clients) && c != ch ==> c in clients
      ensures forall c :: c in clients ==> c in old(clients)
      ensures State() == old(State()) && WeatherCache() == old(WeatherCache())
    {
      ch.open := false;
      var kept: seq<Channel> := [];
      var i := 0;
      while i < |clients|
        invariant 0 <= i <= |clients|
        invariant ch !in kept
        invariant forall c :: c in kept ==> c in clients[..i]
        invariant forall c :: c in clients[..i] && c != ch ==> c in kept
        invariant forall a, b :: 0 <= a < b < |kept| ==> kept[a] != kept[b]
      {
        if clients[i] != ch {
          assert forall c :: c in kept ==> c != clients[i];
          kept := kept + [clients[i]];
        }
        i := i + 1;
      }
      assert clients[..i] == clients;
      clients := kept;
    }

    /** POST /api/light (lines 178-195). */
    method PostLight(status: Value) returns (r: Reply)
      requires Valid()
      modifies this, set c | c in clients
      ensures Valid() && clients == old(clients) && WeatherCache() == old(WeatherCache())
      ensures status.Bool? ==>
        r == LightSet(status.b) && State() == old(State()).(lightOn := status.b)
        && SentToOpen(clients, LightDevice(status.b))
      ensures !status.Bool? ==>
        r == BadRequest("Invalid status. Expected boolean.") && State() == old(State()) && NothingSent(clients)
    {
      if !status.Bool? {
        return BadRequest("Invalid status. Expected boolean.");
      }
      lightOn := status.b;
      Broadcast(LightDevice(status.b));
      r := LightSet(lightOn);
    }

    /** POST /api/fan (lines 197-215): out-of-range or non-integer speeds are
        rejected, never clamped. */
    method PostFan(speed: Value) returns (r: Reply)
      requires Valid()
      modifies this, set c | c in clients
      ensures Valid() && clients == old(clients) && WeatherCache() == old(WeatherCache())
      ensures ValidFanSpeed(speed) ==>
        r == FanSet(speed.n.x.Floor) && State() == old(State()).(fanSpeed := speed.n.x.Floor)
        && SentToOpen(clients, FanDevice(speed.n.x.Floor))
      ensures !ValidFanSpeed(speed) ==>
        r == BadRequest("Invalid speed. Expected integer 0..5.") && State() == old(State()) && NothingSent(clients)
    {
      if !ValidFanSpeed(speed) {
        return BadRequest("Invalid speed. Expected integer 0..5.");
      }
      fanSpeed := speed.n.x.Floor;
      Broadcast(FanDevice(fanSpeed));
      r := FanSet(fanSpeed);
    }

    /** POST /api/update (lines 217-226): never rejects, broadcasts the full state. */
    method PostUpdate(tank: Value, pump: Value, smoke: Value) returns (r: Reply)
      requires Valid()
      modifies this, set c | c in clients
      ensures Valid() && clients == old(clients) && WeatherCache() == old(WeatherCache())
      ensures r == Updated
      ensures State() == ApplyTelemetry(old(State()), tank, pump, smoke)
      ensures SentToOpen(clients, StatusUpdate(State()))
    {
      if tank.Number? {
        tankLevel := TankLevelFrom(tank.n);
      }
      if pump.Bool? {
        pumpOn := pump.b;
      }
      if smoke.Bool? {
        smokeDetected := smoke.b;
      }
      Broadcast(StatusUpdate(State()));
      r := Updated;
    }

    /** The WebSocket `message` handler (lines 244-265): the command is applied
        and announced to every open client, the sender included. */
    method OnMessage(m: Inbound)
      requires Valid()
      modifies this, set c | c in clients
      ensures Valid() && clients == old(clients) && WeatherCache() == old(WeatherCache())
      ensures DecodeCommand(m).SetLight? ==>
        State() == old(State()).(lightOn := DecodeCommand(m).on) && SentToOpen(clients, LightDevice(DecodeCommand(m).on))
      ensures DecodeCommand(m).SetFan? ==>
        State() == old(State()).(fanSpeed := DecodeCommand(m).speed) && SentToOpen(clients, FanDevice(DecodeCommand(m).speed))
      ensures DecodeCommand(m).Ignore? ==> State() == old(State()) && NothingSent(clients)
    {
      var c := DecodeCommand(m);
      match c
      case SetLight(on) =>
        lightOn := on;
        Broadcast(LightDevice(lightOn));
      case SetFan(speed) =>
        fanSpeed := speed;
        Broadcast(FanDevice(fanSpeed));
      case Ignore =>
    }

    /** `fetchWeather()` (lines 57-166) completing at `now`. The temperature
        is written into the current climate first; a later TypeError leaves
        it there and skips the rest. */
    method FetchWeather(outcome: Outcome, now: int)
      requires Valid()
      modifies this
      ensures Valid() && clients == old(clients)
      ensures WeatherCache() == Refresh(old(WeatherCache()), outcome, now)
      ensures State() == old(State()).(climate := climate)
    {
      if outcome.Failed? {
        return;
      }
      var doc := outcome.doc;
      if doc.temperature.Some? {
        climate := climate.(tempC := TempAfter(climate.tempC, doc.temperature));
      }
      var feelsLike := FeelsLike(climate.tempC, climate.humidity);
      var idx: int := -1;
      if |doc.times| > 0 && |doc.humidity| > 0 && doc.times[0].Text? {
        var found := FindCurrentHour(doc.times, 0);
        if found.Threw? {
          return;
        }
        if found.At? {
          idx := found.i;
        } else {
          idx := NearestHour(doc.times, HourStart(now));
        }
      }
      var humidity := HumidityAt(doc.humidity, idx);
      var pressureVisibility := PressureVisibility(doc, idx);
      var condition := Classify(climate.tempC, humidity);
      climate := Climate(climate.tempC, humidity, feelsLike, pressureVisibility.0, pressureVisibility.1,
                         Some(condition), Some(now));
      lastWeatherFetch := now;
    }

    /** GET /api/status (lines 171-176): refetch first when stale. The
        staleness test reads the clock at `now`; the fetch completes at
        `fetchedAt`. */
    method GetStatus(now: int, outcome: Outcome, fetchedAt: int) returns (s: Snapshot, refetched: bool)
      requires Valid()
      modifies this
      ensures Valid() && clients == old(clients)
      ensures refetched == Stale(old(WeatherCache()), now)
      ensures WeatherCache() == if refetched then Refresh(old(WeatherCache()), outcome, fetchedAt) else old(WeatherCache())
      ensures s == State() && s == old(State()).(climate := climate)
    {
      refetched := Stale(WeatherCache(), now);
      if refetched {
        FetchWeather(outcome, fetchedAt);
      }
      s := State();
    }
  }

  /** The REST guard lets through exactly the numbers 0, 1, 2, 3, 4 and 5:
      every accepted value is the number of an integer in 0..5, and the
      number of an integer `k` is accepted exactly when `k` lies in 0..5. */
  lemma ValidFanSpeedIsZeroToFive(v: Value, k: int)
    ensures ValidFanSpeed(v) ==> v == Number(Finite(v.n.x.Floor as real)) && 0 <= v.n.x.Floor <= 5
    ensures ValidFanSpeed(Number(Finite(k as real))) <==> 0 <= k <= 5
  {
  }

  /** A WebSocket fan command with speed 7 is clamped to 5, while the same
      speed over REST is rejected. */
  lemma WebSocketClampsRestRejects()
    ensures DecodeCommand(Parsed(Str("command"), Str("fan"), Undefined, Number(Finite(7.0)))) == SetFan(5)
    ensures !ValidFanSpeed(Number(Finite(7.0)))
  {
  }

  /** Two clients connect and one starts closing: a light change reaches the
      open client after its initial state, and the closing one receives
      nothing beyond what it had. */
  method ClosingClientMissesBroadcast() returns (kept: seq<Message>, closing: seq<Message>)
    ensures kept == [StatusUpdate(DefaultSnapshot), LightDevice(true)]
    ensures closing == [StatusUpdate(DefaultSnapshot)]
  {
    var home := new Home();
    var a := home.Connect();
    var b := home.Connect();
    assert home.clients == [a, b];
    b.BeginClose();
    var _ := home.PostLight(Bool(true));
    assert home.clients[0] == a && home.clients[1] == b;
    kept, closing := a.outbox, b.outbox;
  }
}
