/**
 * The device handlers' request guards and the derivation of the command an
 * ESP board polls for. Each handler is a function from the request fields
 * and the results of its database calls to the reply it sends and the
 * database calls it makes, in order. A database call that rejects is
 * given as a failed result.
 */
module DeviceController {
  import opened Common
  import opened Js

  /** A row of the `devices` table as the command derivation reads it
      (`type`, `name`, `status`, `speed`; SQL NULL or a missing column is None). */
  datatype Device = Device(kind: Option<string>, name: Option<string>, status: Option<string>, speed: Option<int>)

  /** The database operations a handler may call. */
  datatype DbCall =
    | CreateDevice(espId: Value)
    | SetDeviceStatus(status: string)
    | UpdateHeartbeat(espId: Value)
    | QueryDevices(esp: string)

  /** What an awaited database call settled to: a value, or a rejection
      carrying the error's `code` when it has one. */
  datatype DbResult<T> = Resolved(value: T) | Rejected(code: Option<string>)

  datatype Body =
    | Error(error: string)
    | Created(insertId: int)
    | Ack
    | Command(lightStatus: string, fanStatus: string, fanSpeed: int)

  /** The reply sent, or NoReply when the handler itself sends nothing:
      its promise rejects outside a `try`, or it awaits a promise that never
      settles. What the runtime then does (a process exit on the unhandled
      rejection, a framework error response) is outside the handler. */
  datatype Reply = Json(status: int, body: Body) | NoReply

  /** A handler's effect: its reply and the database calls it made. */
  datatype Handled = Handled(reply: Reply, calls: seq<DbCall>)

  // ---------------------------------------------------------------------
  // addDevice, toggleDevice, espHeartbeat
  // ---------------------------------------------------------------------

  /** `addDevice` (lines 19-32). `created` is how `createDevice` settles;
      a rejection carries the MySQL error's code. The pool-missing throw
      in models/Device.js:5-7 cannot happen, since config/db.js:25 always
      exports a pool. */
  function AddDevice(espId: Value, created: DbResult<int>): (h: Handled)
    ensures !Truthy(espId) ==> h == Handled(Json(400, Error("espId required")), [])
    ensures Truthy(espId) ==> h.calls == [CreateDevice(espId)]
    ensures Truthy(espId) && created.Resolved? ==> h.reply == Json(201, Created(created.value))
    ensures Truthy(espId) && created.Rejected? ==>
      h.reply == (if created.code == Some("ER_DUP_ENTRY") then Json(409, Error("espId already registered"))
                  else Json(500, Error("Failed to add device")))
  {
    if !Truthy(espId) then Handled(Json(400, Error("espId required")), [])
    else
      var calls := [CreateDevice(espId)];
      match created
      case Resolved(id) => Handled(Json(201, Created(id)), calls)
      case Rejected(code) =>
        if code == Some("ER_DUP_ENTRY") then Handled(Json(409, Error("espId already registered")), calls)
        else Handled(Json(500, Error("Failed to add device")), calls)
  }

  /** `["ON", "OFF"].includes(status)`: strict equality, so only these two strings. */
  predicate GoodStatus(status: Value) {
    status == Str("ON") || status == Str("OFF")
  }

  /** `toggleDevice` (lines 34-46). `setDeviceStatus` resolves to undefined
      (models/Device.js:54-63), so `updated` is always falsy once it resolves. */
  function ToggleDevice(status: Value, updateResolved: bool): (h: Handled)
    ensures !GoodStatus(status) ==> h == Handled(Json(400, Error("Bad status")), [])
    ensures GoodStatus(status) ==> h.calls == [SetDeviceStatus(status.s)]
    ensures GoodStatus(status) && updateResolved ==> h.reply == Json(404, Error("Device not found"))
    ensures GoodStatus(status) && !updateResolved ==> h.reply == Json(500, Error("Failed to toggle device"))
  {
    if !GoodStatus(status) then Handled(Json(400, Error("Bad status")), [])
    else
      var calls := [SetDeviceStatus(status.s)];
      // a resolved update yields undefined, which fails the `!updated` test
      if updateResolved then Handled(Json(404, Error("Device not found")), calls)
      else Handled(Json(500, Error("Failed to toggle device")), calls)
  }

  /** No request to `toggleDevice` is ever answered with success. */
  lemma ToggleNeverSucceeds(status: Value, updateResolved: bool)
    ensures ToggleDevice(status, updateResolved).reply.Json?
    ensures ToggleDevice(status, updateResolved).reply.status in {400, 404, 500}
  {
  }

  /** `espHeartbeat` (lines 49-54): no `try`, so a rejected update sends nothing. */
  function EspHeartbeat(espId: Value, updateResolved: bool): (h: Handled)
    ensures !Truthy(espId) ==> h == Handled(Json(400, Error("espId required")), [])
    ensures Truthy(espId) ==> h.calls == [UpdateHeartbeat(espId)]
    ensures Truthy(espId) ==> (h.reply == Json(200, Ack) <==> updateResolved)
    ensures Truthy(espId) && !updateResolved ==> h.reply == NoReply
  {
    if !Truthy(espId) then Handled(Json(400, Error("espId required")), [])
    else Handled(if updateResolved then Json(200, Ack) else NoReply, [UpdateHeartbeat(espId)])
  }

  // ---------------------------------------------------------------------
  // The ESP command
  // ---------------------------------------------------------------------

  /** `toLowerCase` on ASCII letters. */
  function Lower(s: string): (r: string)
    ensures |r| == |s|
    ensures forall i :: 0 <= i < |s| ==> r[i] == (if 'A' <= s[i] <= 'Z' then (s[i] as int + 32) as char else s[i])
  {
    if s == [] then [] else
      var c := s[0];
      [if 'A' <= c <= 'Z' then (c as int + 32) as char else c] + Lower(s[1..])
  }

  predicate OccursAt(s: string, t: string, i: nat) {
    i + |t| <= |s| && s[i..i + |t|] == t
  }

  /** `s.includes(t)`. */
  predicate Contains(s: string, t: string) {
    exists i: nat | i <= |s| - |t| :: OccursAt(s, t, i)
  }

  /** `d.type === word || d.name?.toLowerCase().includes(word)`. */
  predicate Matches(d: Device, word: string) {
    d.kind == Some(word) || (d.name.Some? && Contains(Lower(d.name.value), word))
  }

  /** `devices.find(...)` as an index: the first device matching `word`. */
  function FindFirst(devices: seq<Device>, word: string): (r: Option<nat>)
    ensures r.Some? ==> r.value < |devices| && Matches(devices[r.value], word)
    ensures r.Some? ==> forall k :: 0 <= k < r.value ==> !Matches(devices[k], word)
    ensures r.None? ==> forall k :: 0 <= k < |devices| ==> !Matches(devices[k], word)
  {
    if devices == [] then None
    else if Matches(devices[0], word) then Some(0)
    else match FindFirst(devices[1..], word)
      case None => None
      case Some(k) => Some(k + 1)
  }

  /** `x || "off"` for a status column. */
  function StatusOrOff(status: Option<string>): (r: string)
    ensures r != ""
    ensures r == "off" <==> status.None? || status.value in {"", "off"}
  {
    if status.Some? && status.value != "" then status.value else "off"
  }

  /** `i` is the first device matching `word`. */
  ghost predicate FirstMatch(devices: seq<Device>, word: string, i: int) {
    0 <= i < |devices| && Matches(devices[i], word) && forall k :: 0 <= k < i ==> !Matches(devices[k], word)
  }

  ghost predicate NoMatch(devices: seq<Device>, word: string) {
    forall k :: 0 <= k < |devices| ==> !Matches(devices[k], word)
  }

  /** Lines 74-91: the light status comes from the first light, the fan
      status and speed from the first fan, with "off" and 0 as defaults. */
  function CommandFor(devices: seq<Device>): (c: Body)
    ensures c.Command?
    ensures NoMatch(devices, "light") ==> c.lightStatus == "off"
    ensures forall i :: FirstMatch(devices, "light", i) ==> c.lightStatus == StatusOrOff(devices[i].status)
    ensures NoMatch(devices, "fan") ==> c.fanStatus == "off" && c.fanSpeed == 0
    ensures forall i :: FirstMatch(devices, "fan", i) ==>
      c.fanStatus == StatusOrOff(devices[i].status) && c.fanSpeed == devices[i].speed.GetOr(0)
  {
    var light := FindFirst(devices, "light");
    var fan := FindFirst(devices, "fan");
    var lightStatus := if light.Some? then StatusOrOff(devices[light.value].status) else "off";
    var fanStatus := if fan.Some? then StatusOrOff(devices[fan.value].status) else "off";
    var fanSpeed := if fan.Some? then devices[fan.value].speed.GetOr(0) else 0;
    Command(lightStatus, fanStatus, fanSpeed)
  }

  /** The list of lines 62-66. `pool.promise()` is always an object, so
      this branch is unreachable in the program as configured. */
  const DummyDevices := [Device(Some("light"), None, Some("off"), None), Device(Some("fan"), None, Some("off"), Some(0))]

  /** `getCommandForEsp` (lines 56-92). `pool` is the truthiness of the
      exported pool, which config/db.js:25 makes always true; the false case
      models the dead branch of lines 62-66. `rows` is how the query
      settles: it rejects inside the async promise executor, so the awaited
      promise never settles and no reply is sent. */
  function GetCommandForEsp(espId: Option<string>, pool: bool, rows: DbResult<seq<Device>>): (h: Handled)
    ensures !(espId.Some? && espId.value != "") ==> h == Handled(Json(400, Error("espId required")), [])
    ensures espId.Some? && espId.value != "" ==>
      && h.calls == (if pool then [QueryDevices(espId.value)] else [])
      && (!pool ==> h.reply == Json(200, Command("off", "off", 0)))
      && (pool && rows.Rejected? ==> h.reply == NoReply)
      && (pool && rows == Resolved([]) ==> h.reply == Json(404, Error("Not registered")))
      && (pool && rows.Resolved? && rows.value != [] ==> h.reply == Json(200, CommandFor(rows.value)))
  {
    if !(espId.Some? && espId.value != "") then Handled(Json(400, Error("espId required")), [])
    else if !pool then
      assert FindFirst(DummyDevices, "light") == Some(0);
      assert FindFirst(DummyDevices, "fan") == Some(1);
      Handled(Json(200, CommandFor(DummyDevices)), [])
    else
      var calls := [QueryDevices(espId.value)];
      match rows
      case Rejected(_) => Handled(NoReply, calls)
      case Resolved(devices) =>
        if devices == [] then Handled(Json(404, Error("Not registered")), calls)
        else Handled(Json(200, CommandFor(devices)), calls)
  }

  /** One device can serve as both the light and the fan: a device named
      "Fan Light" is picked by both searches. */
  lemma OneDeviceBothRoles()
    ensures CommandFor([Device(None, Some("Fan Light"), Some("ON"), Some(3))]) == Command("ON", "ON", 3)
  {
    var d := Device(None, Some("Fan Light"), Some("ON"), Some(3));
    var low := Lower("Fan Light");
    assert low[0] == 'f' && low[1] == 'a' && low[2] == 'n';
    assert low[4] == 'l' && low[5] == 'i' && low[6] == 'g' && low[7] == 'h' && low[8] == 't';
    assert OccursAt(low, "fan", 0) by { assert low[0..3] == "fan"; }
    assert OccursAt(low, "light", 4) by { assert low[4..9] == "light"; }
    assert Matches(d, "light") && Matches(d, "fan");
    assert FindFirst([d], "light") == Some(0) && FindFirst([d], "fan") == Some(0);
  }

  /** Devices found by their type column, whose falsy status and speed fall
      back to "off" and 0. */
  lemma FirstMatchWithDefaults()
    ensures CommandFor([Device(Some("light"), None, Some(""), None), Device(Some("fan"), None, None, Some(0))])
      == Command("off", "off", 0)
  {
    var ds := [Device(Some("light"), None, Some(""), None), Device(Some("fan"), None, None, Some(0))];
    assert FindFirst(ds, "light") == Some(0);
    assert !Matches(ds[0], "fan");
    assert FindFirst(ds, "fan") == Some(1);
  }
}
