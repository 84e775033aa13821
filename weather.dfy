/**
 * The computational part of the server's weather refresh: turning one
 * forecast document (a current temperature and hourly arrays of humidity,
 * pressure and visibility keyed by ISO-8601 hour stamps) into the single
 * "current" climate reading, and the freshness rule that decides when a
 * status read refetches.
 *
 * The network request, `JSON.parse`, `Date.parse` and the string prefix test
 * against the current hour are outside the model: each hourly time stamp
 * arrives already classified (does it start with the current UTC hour? what
 * does `Date.parse` make of it?).
 */
module Weather {
  import opened Common
  import opened Js

  /** One hour in milliseconds. */
  const HourMs: int := 60 * 60 * 1000

  /** Time-to-live of a successful fetch: ten minutes. */
  const WeatherTtl: int := 10 * 60 * 1000

  /** The condition strings "Clear", "Partly Cloudy", "Cloudy", "Rain", "Snow", "Unknown". */
  datatype Condition = Clear | PartlyCloudy | Cloudy | Rain | Snow | Unknown

  /** `state.climate`. Before the first successful fetch only `tempC`,
      `humidity` and `updatedAt` exist (all null); a fetch replaces the
      object with all seven fields. `updatedAt` holds the fetch time in
      milliseconds where the source stores its ISO string. */
  datatype Climate = Climate(
    tempC: Option<int>,
    humidity: Option<int>,
    feelsLike: Option<int>,
    pressure: Option<int>,
    visibility: Option<int>,
    condition: Option<Condition>,
    updatedAt: Option<int>)

  const InitialClimate: Climate := Climate(None, None, None, None, None, None, None)

  /** The cache: the climate reading and `lastWeatherFetch` (0 at start). */
  datatype Cache = Cache(climate: Climate, lastFetch: int)

  const InitialCache: Cache := Cache(InitialClimate, 0)

  /** An entry of `hourly.time`: a string, with whether it starts with the
      current UTC hour prefix and what `Date.parse` gives for it (None when
      the result is not finite), or a value of some other type. */
  datatype Stamp = Text(inCurrentHour: bool, parsed: Option<int>) | NonText

  /** An entry of an hourly reading array: a finite number or anything else. */
  datatype Sample = Sample(x: real) | NoSample

  /** A fetched forecast. `temperature` is `current_weather.temperature` when
      `current_weather` exists and the field is a number, None otherwise.
      Missing arrays are empty. */
  datatype Document = Document(
    temperature: Option<Num>,
    times: seq<Stamp>,
    humidity: seq<Sample>,
    pressure: seq<Sample>,
    visibility: seq<Sample>)

  /** What the request produced: a failure before any field was read (network
      error, non-2xx status, unparseable body), or a document. */
  datatype Outcome = Failed | Received(doc: Document)

  /** Start of the UTC hour holding `now` (epoch milliseconds). */
  function HourStart(now: int): (h: int)
    ensures h <= now < h + HourMs
    ensures h % HourMs == 0
  {
    (now / HourMs) * HourMs
  }

  /** The temperature after line 77: rounded when finite, null when not
      finite, untouched when the document carries no numeric temperature. */
  function TempAfter(prev: Option<int>, t: Option<Num>): (r: Option<int>)
    ensures t.None? ==> r == prev
    ensures t.Some? ==> (r.Some? <==> t.value.Finite?)
    ensures t.Some? && t.value.Finite? ==> r.value as real - 0.5 <= t.value.x < r.value as real + 0.5
  {
    match t
    case None => prev
    case Some(Finite(x)) => Some(Round(x))
    case Some(_) => None
  }

  // ---------------------------------------------------------------------
  // Hour selection
  // ---------------------------------------------------------------------

  /** Result of `times.findIndex(t => t.startsWith(hour))`: an index, -1, or
      a TypeError when the scan reaches a non-string entry. */
  datatype HourMatch = At(i: nat) | NoMatch | Threw

  /** A string entry that starts with the current UTC hour. */
  predicate InHour(s: Stamp) {
    s.Text? && s.inCurrentHour
  }

  /** No entry before `n` is a string starting with the current hour, and all are strings. */
  ghost predicate ScannedClean(times: seq<Stamp>, n: nat)
    requires n <= |times|
  {
    forall j :: 0 <= j < n ==> times[j].Text? && !InHour(times[j])
  }

  /** `findIndex` from position `k` on. */
  function FindCurrentHour(times: seq<Stamp>, k: nat): (r: HourMatch)
    requires k <= |times|
    requires ScannedClean(times, k)
    ensures r.At? ==> k <= r.i < |times| && times[r.i].Text? && times[r.i].inCurrentHour && ScannedClean(times, r.i)
    ensures r.NoMatch? ==> ScannedClean(times, |times|)
    ensures r.Threw? ==> exists j :: k <= j < |times| && times[j].NonText? && ScannedClean(times, j)
    decreases |times| - k
  {
    if k == |times| then NoMatch
    else match times[k]
      case NonText => Threw
      case Text(hit, _) => if hit then At(k) else FindCurrentHour(times, k + 1)
  }

  predicate Parseable(s: Stamp) {
    s.Text? && s.parsed.Some?
  }

  /** `Math.abs(Date.parse(t) - target)`. */
  function Distance(s: Stamp, target: int): nat
    requires Parseable(s)
  {
    var d := s.parsed.value - target;
    if d < 0 then -d else d
  }

  /** `k` is what the fallback scan of the first `n` entries leaves in
      `best`: 0 when none of them parses, otherwise the first index whose
      distance to `target` is strictly smallest. */
  ghost predicate IsNearestIn(times: seq<Stamp>, target: int, n: nat, k: nat)
    requires n <= |times|
  {
    if forall j :: 0 <= j < n ==> !Parseable(times[j]) then k == 0
    else
      && k < n
      && Parseable(times[k])
      && (forall j :: 0 <= j < n && Parseable(times[j]) ==> Distance(times[k], target) <= Distance(times[j], target))
      && (forall j :: 0 <= j < k && Parseable(times[j]) ==> Distance(times[k], target) < Distance(times[j], target))
  }

  ghost predicate IsNearest(times: seq<Stamp>, target: int, k: nat) {
    IsNearestIn(times, target, |times|, k)
  }

  /** Reference definition of the nearest-hour fallback over the first `n` entries. */
  function NearestIn(times: seq<Stamp>, target: int, n: nat): (k: nat)
    requires n <= |times|
    ensures IsNearestIn(times, target, n, k)
    decreases n
  {
    if n == 0 then 0
    else
      var k := NearestIn(times, target, n - 1);
      var s := times[n - 1];
      if Parseable(s) && (!Parseable(times[k]) || Distance(s, target) < Distance(times[k], target)) then n - 1
      else k
  }

  function Nearest(times: seq<Stamp>, target: int): (k: nat)
    ensures IsNearest(times, target, k)
    ensures |times| > 0 ==> k < |times|
  {
    NearestIn(times, target, |times|)
  }

  /** The fallback's choice is determined by its specification. */
  lemma NearestUnique(times: seq<Stamp>, target: int, n: nat, a: nat, b: nat)
    requires n <= |times|
    requires IsNearestIn(times, target, n, a) && IsNearestIn(times, target, n, b)
    ensures a == b
  {
  }

  /** The loop of lines 107-117: keep the first strictly smallest distance. */
  method NearestHour(times: seq<Stamp>, target: int) returns (best: nat)
    ensures IsNearest(times, target, best)
    ensures best == Nearest(times, target)
  {
    best := 0;
    var bestDiff: Option<nat> := None;  // None stands for Infinity
    var i := 0;
    while i < |times|
      invariant 0 <= i <= |times|
      invariant IsNearestIn(times, target, i, best)
      invariant bestDiff.None? <==> forall j :: 0 <= j < i ==> !Parseable(times[j])
      invariant bestDiff.Some? ==> Parseable(times[best]) && bestDiff.value == Distance(times[best], target)
    {
      var t := times[i];
      if Parseable(t) {
        var diff := Distance(t, target);
        if bestDiff.None? || diff < bestDiff.value {
          bestDiff := Some(diff);
          best := i;
        }
      }
      i := i + 1;
    }
    NearestUnique(times, target, |times|, best, Nearest(times, target));
  }

  /** The index the refresh reads its hourly values from, or the TypeError
      that aborts it. `Picked(-1)` is the source's `idx = -1`. */
  datatype Selection = Picked(idx: int) | Aborted

  /** Lines 93-118: search only when `times` and `humidity` are non-empty and
      `times[0]` is a string; an exact current-hour prefix wins, otherwise the
      nearest parseable stamp measured from the start of the current hour. */
  function SelectHour(doc: Document, now: int): (r: Selection)
    ensures !(|doc.times| > 0 && |doc.humidity| > 0 && doc.times[0].Text?) ==> r == Picked(-1)
    ensures r.Picked? && r.idx != -1 ==> 0 <= r.idx < |doc.times|
    ensures r.Picked? && 0 <= r.idx && InHour(doc.times[r.idx]) ==>
      forall j :: 0 <= j < r.idx ==> !InHour(doc.times[j])
    ensures r.Picked? && 0 <= r.idx && (exists j :: 0 <= j < |doc.times| && InHour(doc.times[j])) ==>
      InHour(doc.times[r.idx])
    ensures r.Picked? && 0 <= r.idx && (forall j :: 0 <= j < |doc.times| ==> !InHour(doc.times[j])) ==>
      IsNearest(doc.times, HourStart(now), r.idx)
    ensures r.Aborted? ==> exists j :: 0 <= j < |doc.times| && doc.times[j].NonText?
    ensures |doc.times| > 0 && |doc.humidity| > 0 && doc.times[0].Text? && r.Picked? ==> 0 <= r.idx < |doc.times|
    ensures |doc.times| > 0 && |doc.humidity| > 0 && doc.times[0].Text? ==>
      (r.Aborted? <==> exists j :: 0 <= j < |doc.times| && doc.times[j].NonText? && forall k :: 0 <= k < j ==> !InHour(doc.times[k]))
  {
    if |doc.times| > 0 && |doc.humidity| > 0 && doc.times[0].Text? then
      match FindCurrentHour(doc.times, 0)
      case At(i) => Picked(i)
      case NoMatch => Picked(Nearest(doc.times, HourStart(now)))
      case Threw => Aborted
    else Picked(-1)
  }

  // ---------------------------------------------------------------------
  // Reading guards and derived metrics
  // ---------------------------------------------------------------------

  /** Lines 120-121: the rounded humidity at `idx`, when it is a number. */
  function HumidityAt(humidity: seq<Sample>, idx: int): (r: Option<int>)
    ensures r.Some? <==> 0 <= idx < |humidity| && humidity[idx].Sample?
    ensures r.Some? ==> r.value as real - 0.5 <= humidity[idx].x < r.value as real + 0.5
  {
    if 0 <= idx < |humidity| && humidity[idx].Sample? then Some(Round(humidity[idx].x)) else None
  }

  /** Lines 127-132: pressure and visibility are read only when `idx` is in
      range of BOTH arrays; visibility is converted from metres to whole km. */
  function PressureVisibility(doc: Document, idx: int): (r: (Option<int>, Option<int>))
    ensures r.0.Some? <==> 0 <= idx < |doc.pressure| && idx < |doc.visibility| && doc.pressure[idx].Sample?
    ensures r.1.Some? <==> 0 <= idx < |doc.pressure| && idx < |doc.visibility| && doc.visibility[idx].Sample?
    ensures r.0.Some? ==> r.0.value as real - 0.5 <= doc.pressure[idx].x < r.0.value as real + 0.5
    ensures r.1.Some? ==> r.1.value as real - 0.5 <= doc.visibility[idx].x / 1000.0 < r.1.value as real + 0.5
  {
    if 0 <= idx && idx < |doc.pressure| && idx < |doc.visibility| then
      var p := if doc.pressure[idx].Sample? then Some(Round(doc.pressure[idx].x)) else None;
      var v := if doc.visibility[idx].Sample? then Some(Round(doc.visibility[idx].x / 1000.0)) else None;
      (p, v)
    else (None, None)
  }

  /** Line 87 evaluated in exact arithmetic (the source computes it in
      floating point). */
  function HeatIndex(t: int, h: int): int {
    var tr, hr := t as real, h as real;
    Round(tr + 0.348 * hr - 0.7 * tr * hr / 100.0 - 5.666 + 0.0036 * hr * hr)
  }

  /** Lines 81-89: the heat index replaces the temperature only above 27 °C
      and only when a humidity is known; `humidity` is the one already in the
      state, i.e. from the previous refresh. */
  function FeelsLike(tempC: Option<int>, humidity: Option<int>): (r: Option<int>)
    ensures r.Some? <==> tempC.Some?
    ensures r != tempC ==> tempC.Some? && tempC.value > 27 && humidity.Some?
    ensures tempC.Some? && tempC.value > 27 && humidity.Some? ==> r == Some(HeatIndex(tempC.value, humidity.value))
  {
    if tempC.Some? && humidity.Some? && tempC.value > 27 then Some(HeatIndex(tempC.value, humidity.value))
    else tempC
  }

  /** Lines 135-148: the condition ladder, stated as the band each condition covers. */
  function Classify(tempC: Option<int>, humidity: Option<int>): (r: Condition)
    ensures r == Unknown <==> tempC.None? || humidity.None?
    ensures r == Snow <==> tempC.Some? && humidity.Some? && tempC.value <= 0
    ensures r == Rain <==> tempC.Some? && humidity.Some? && tempC.value > 0 && humidity.value > 85
    ensures r == Cloudy <==> tempC.Some? && humidity.Some? && tempC.value > 0 && 70 < humidity.value <= 85
    ensures r == PartlyCloudy <==> tempC.Some? && humidity.Some? && tempC.value > 0 && 40 < humidity.value <= 70
    ensures r == Clear <==> tempC.Some? && humidity.Some? && tempC.value > 0 && humidity.value <= 40
  {
    if tempC.None? || humidity.None? then Unknown
    else if tempC.value <= 0 then Snow
    else if humidity.value > 85 then Rain
    else if humidity.value > 70 then Cloudy
    else if humidity.value > 40 then PartlyCloudy
    else Clear
  }

  // ---------------------------------------------------------------------
  // The whole refresh and the freshness rule
  // ---------------------------------------------------------------------

  /** The cache after one `fetchWeather()` that completes at `now`. */
  function Refresh(c: Cache, outcome: Outcome, now: int): (r: Cache)
    // fail-soft: a failed request changes nothing
    ensures outcome.Failed? ==> r == c
    // the temperature is written first and survives a later TypeError
    ensures outcome.Received? ==> r.climate.tempC == TempAfter(c.climate.tempC, outcome.doc.temperature)
    ensures outcome.Received? && SelectHour(outcome.doc, now).Aborted? ==>
      r == Cache(c.climate.(tempC := r.climate.tempC), c.lastFetch)
    // only a completed refresh replaces the climate and stamps the fetch time
    ensures r.lastFetch != c.lastFetch ==> r.lastFetch == now && r.climate.updatedAt == Some(now)
    ensures outcome.Received? && SelectHour(outcome.doc, now).Picked? ==>
      && r.lastFetch == now
      && r.climate.updatedAt == Some(now)
      && r.climate.humidity == HumidityAt(outcome.doc.humidity, SelectHour(outcome.doc, now).idx)
      && r.climate.feelsLike == FeelsLike(r.climate.tempC, c.climate.humidity)
      && r.climate.condition == Some(Classify(r.climate.tempC, r.climate.humidity))
      && (r.climate.pressure, r.climate.visibility) == PressureVisibility(outcome.doc, SelectHour(outcome.doc, now).idx)
  {
    match outcome
    case Failed => c
    case Received(doc) =>
      var tempC := TempAfter(c.climate.tempC, doc.temperature);
      match SelectHour(doc, now)
      case Aborted => Cache(c.climate.(tempC := tempC), c.lastFetch)
      case Picked(idx) =>
        var humidity := HumidityAt(doc.humidity, idx);
        var pv := PressureVisibility(doc, idx);
        Cache(Climate(tempC, humidity, FeelsLike(tempC, c.climate.humidity), pv.0, pv.1,
                      Some(Classify(tempC, humidity)), Some(now)), now)
  }

  /** Line 172: refetch when the temperature is falsy (null or 0) or the last
      successful fetch is more than the TTL old. */
  predicate Stale(c: Cache, now: int) {
    c.climate.tempC.None? || c.climate.tempC == Some(0) || now - c.lastFetch > WeatherTtl
  }

  /** A completed refresh with a non-zero temperature keeps status reads
      from refetching for exactly the TTL window, and no longer. */
  lemma FreshForTtl(c: Cache, outcome: Outcome, now: int, later: int)
    requires outcome.Received? && SelectHour(outcome.doc, now).Picked?
    requires Refresh(c, outcome, now).climate.tempC.Some? && Refresh(c, outcome, now).climate.tempC != Some(0)
    ensures Stale(Refresh(c, outcome, now), later) <==> later - now > WeatherTtl
  {
  }

  /** A reading of exactly 0 °C always forces a refetch. */
  lemma ZeroDegreesIsStale(c: Cache, now: int)
    requires c.climate.tempC == Some(0)
    ensures Stale(c, now)
  {
  }

  /** A failed request leaves the cache stale if it was stale: the next
      status read retries. */
  lemma FailedFetchRetries(c: Cache, now: int, later: int)
    requires Stale(c, now) && later >= now
    ensures Stale(Refresh(c, Failed, later), later)
  {
  }

  /** The fresh process has no temperature, so its first status read refetches. */
  lemma InitialIsStale(now: int)
    ensures Stale(InitialCache, now)
  {
  }

  /** Exact-hour precedence: a current-hour stamp wins over a numerically
      closer one. At 10:59 the 10:00 stamp carries the prefix and is chosen. */
  lemma PrefixBeatsCloser(now: int, tenOClock: int, elevenOClock: int, h: real)
    requires elevenOClock - now < now - tenOClock
    ensures SelectHour(Document(None, [Text(true, Some(tenOClock)), Text(false, Some(elevenOClock))],
                                [Sample(h), Sample(h)], [], []), now) == Picked(0)
  {
  }

  /** The heat index at 30 °C and 80 % (exact arithmetic) is 58, not 30. */
  lemma HeatIndexExample()
    ensures FeelsLike(Some(30), Some(80)) == Some(58)
  {
  }
}
