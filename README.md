# Smart-home backend: a verified model of its core

This project models the core of a small smart-home backend. The core has three parts.

- **Shared state.** A single in-memory state holds:
  - the light switch;
  - the fan speed (0..5);
  - the water-tank level (0..100);
  - the pump and smoke flags;
  - a climate reading.
- **Fan-out and API.** The state is kept in sync with every connected WebSocket client. It is changed through REST endpoints, inbound WebSocket commands and periodic weather refreshes.
- **Weather refresh.** The refresh turns one hourly forecast document into the current reading. It picks the hour that matches the current UTC hour, or the nearest one. It derives a feels-like temperature and a condition. A ten-minute time-to-live decides when a status read refetches.

The model also covers the authentication and device-control layers around the core:

- phone-number parsing and normalisation;
- the in-memory one-time-code store;
- the check ordering and key choice in the auth handlers;
- the ESP-board command derivation and request guards.

One module per source file:

| module | file | form |
|---|---|---|
| `Js` | `js.dfy` | JavaScript value semantics the guards rely on: truthiness, `Number.isInteger`, `Math.round`, clamping, `\d`/`\s` |
| `Common` | `common.dfy` | `Option` |
| `Weather` | `weather.dfy` | pure functions: hour selection, derived metrics, the whole refresh as `Refresh`, the staleness rule |
| `Server` | `server.dfy` | class `Home` (the state, the fetch timestamp, the client registry) and class `Channel` (one WebSocket client) |
| `PhoneUtils` | `phone_utils.dfy` | pure functions: the three-regex split, storage and sending forms |
| `NormalizePhone` | `normalize_phone.dfy` | pure rewrite plus the middleware as a method on a mutable request |
| `OtpService` | `otp_service.dfy` | class `OtpStore` over a `map` |
| `AuthController` | `auth_controller.dfy` | pure key choice and e-mail pattern, handlers as methods over `UserStore`/`OtpStore` |
| `DeviceController` | `device_controller.dfy` | handlers as functions from request fields and database results to the reply and the database calls made |

Behaviour of the code a reader may not expect:

- **REST updates.** The REST light and fan endpoints and the WebSocket command broadcast a small `device` message, not a full state snapshot. Only telemetry (`/api/update`) and a new connection send the full `status_update`.
- **Weather refresh.** A weather refresh writes the climate but broadcasts nothing.
- **WebSocket fan speed.** A WebSocket fan command accepts any integer speed and clamps it into 0..5 (`Server.DecodeCommand`). It does not reject it as the REST endpoint does (`Server.WebSocketClampsRestRejects`).
- **Hourly readings.** Humidity is read at the chosen index whenever that index is within the humidity array. Pressure and visibility are read only when it is within both of their arrays, independently of the humidity array.
- **Staleness.** A temperature of exactly 0 °C counts as missing, so it always forces a refetch (`Weather.ZeroDegreesIsStale`).

Behaviour of the code that the model exhibits as written:

- **A log-in code requested by e-mail cannot be verified.** The log-in branch of `sendOtp` stores the code under a key built from the phone. Without a phone that key is the empty string, while `verifyOtp` looks the code up under the e-mail address (`AuthController.EmailLoginKeysDiffer`, `AuthController.EmailLoginCannotVerify`). A code requested through the registration branch with only an e-mail is stored under the e-mail itself, so verifying it for a log-in succeeds and returns the user (`AuthController.EmailRegistrationCodeLogsIn`).
- **`toggleDevice` never succeeds.** `setDeviceStatus` resolves to `undefined`, so the handler answers 404 or 500 (`DeviceController.ToggleNeverSucceeds`).
- **Duplicate country codes survive normalisation.** The collapse step never fires, because stripping has already removed every `+` after the first. So `"+91+91"` becomes `"+9191"` (`NormalizePhone.DuplicateCodeNotCollapsed`).

Inputs that the source reads from its surroundings are parameters:

- The current time is `now`, in epoch milliseconds.
- The one-time code is `otp`.
- The forecast request becomes an `Outcome`: failed, or received with a document.
- Each hourly time stamp arrives already classified. The classification says whether it starts with the current UTC hour and what `Date.parse` gives for it.
- Database results are given as resolved or rejected values, and `save()` as success or failure.
- The truthiness of the exported MySQL pool is `pool`. config/db.js:25 always exports `pool.promise()`, an object, so `pool` is always true in the program as configured. The dummy-device branch of controllers/deviceController.js:62-65 is therefore unreachable; the model keeps it as the `pool == false` case.

## Model

| member | source | states |
|---|---|---|
| Js.Truthy | controllers/deviceController.js:22 | JavaScript truthiness: false exactly for `undefined`, `null`, `false`, the number 0 and the empty string (a definition used by the guards) |
| Js.IsInteger | server.js:199 | `Number.isInteger`: a finite number with no fractional part (a definition used by the fan guards) |
| Js.IsSpace | middleware/normalizePhone.js:3 | the ECMAScript WhiteSpace and LineTerminator code points that `trim()` removes (a definition) |
| Js.Round | server.js:77 | `Math.round`: the result is the integer nearest to the input, with halves rounding up |
| Js.Clamp | server.js:219 | `Math.max(lo, Math.min(hi, x))` lies in `[lo, hi]`, is `x` inside that range and the violated bound outside it |
| Weather.HourStart | server.js:96-108 | the start of the UTC hour holding `now`: a multiple of one hour, at most `now`, less than one hour before it |
| Weather.TempAfter | server.js:76-78 | the temperature is untouched without a numeric field, null for a non-finite one, and otherwise the rounded value |
| Weather.FindCurrentHour | server.js:105 | `findIndex` either finds the first string entry with the current-hour prefix (every earlier entry is a string without it), or reports none, or throws at the first non-string entry |
| Weather.NearestIn | server.js:107-117 | reference definition: index 0 when no stamp parses, otherwise the first index whose distance to the target is strictly smallest |
| Weather.Nearest | server.js:107-117 | the fallback over the whole list satisfies the nearest-hour specification and is a valid index of a non-empty list |
| Weather.NearestUnique | server.js:107-117 | the nearest-hour specification determines exactly one index |
| Weather.NearestHour | server.js:107-117 | the loop with `best`/`bestDiff` (Infinity as None) returns exactly the specified nearest index |
| Weather.SelectHour | server.js:91-118 | `idx` stays -1 unless both arrays are non-empty and `times[0]` is a string; a current-hour stamp wins over every nearer one and is the first such; without one the nearest parseable stamp to the hour start is chosen; a picked index is within the time list; the scan aborts exactly when a non-string entry comes before every current-hour stamp |
| Weather.HumidityAt | server.js:120-121 | humidity is known exactly when `idx` is in range and the entry is a number, and is then its rounding |
| Weather.PressureVisibility | server.js:124-132 | pressure and visibility are read only when `idx` is in range of both arrays; each is the rounded number, visibility converted from metres to kilometres |
| Weather.HeatIndex | server.js:87 | the source's heat-index polynomial in temperature and humidity, rounded with `Math.round` (no contract of its own; used by FeelsLike) |
| Weather.FeelsLike | server.js:80-89 | feels-like equals the temperature unless it is above 27 °C and a humidity is known, in which case it is the heat-index formula |
| Weather.Classify | server.js:134-148 | each condition holds exactly on its band: Unknown without temperature or humidity, Snow at or below 0 °C, then Rain above 85 %, Cloudy above 70 %, Partly Cloudy above 40 %, otherwise Clear |
| Weather.Refresh | server.js:57-166 | a failed request changes nothing; the temperature is written first and survives an aborting TypeError, which changes nothing else; a completed refresh replaces the climate with the selected hour's readings, uses the previous humidity for feels-like, and stamps the fetch time |
| Weather.Stale | server.js:172 | a cache is stale when it has no temperature, a temperature of 0 (falsy), or a fetch more than ten minutes before `now` (a definition; its consequences are the lemmas below) |
| Weather.FreshForTtl | server.js:171-174 | after a completed refresh with a non-zero temperature, a status read refetches exactly when more than ten minutes have passed |
| Weather.ZeroDegreesIsStale | server.js:172 | a stored temperature of 0 always counts as stale |
| Weather.FailedFetchRetries | server.js:163-165 | a failed refresh leaves a stale cache stale at any later time, so the next read retries |
| Weather.InitialIsStale | server.js:44-53 | the process starts with no temperature, so its first status read fetches |
| Weather.PrefixBeatsCloser | server.js:105-118 | a stamp carrying the current-hour prefix is chosen over a numerically closer stamp |
| Weather.HeatIndexExample | server.js:84-88 | at 30 °C and 80 % humidity feels-like is 58, not 30 |
| Server.DecodeCommand | server.js:250-259 | a frame sets the light exactly when it is a light command with a boolean state, sets the fan exactly when it is a fan command with an integer speed, stores the speed clamped into 0..5: unchanged when already in range, 5 above it and 0 below it; any other frame is ignored |
| Server.TankLevelFrom | server.js:219 | the stored tank level is in 0..100, the rounded value inside that range, 0 below it, 100 for any value above 100 (infinities included) |
| Server.ApplyTelemetry | server.js:217-222 | only a number changes the tank level and only a boolean changes the pump or smoke flag; light, fan and climate are untouched; an in-range tank level stays in range |
| Server.ValidFanSpeedIsZeroToFive | server.js:199 | the REST guard (`ValidFanSpeed`) accepts exactly the numbers of the integers 0..5 |
| Server.WebSocketClampsRestRejects | server.js:199-257 | a speed of 7 is clamped to 5 over the WebSocket but rejected over REST |
| Server.ClosingClientMissesBroadcast | server.js:232-237 | with two clients, one of which has left the OPEN state, a light change reaches only the open one, after its initial `status_update`; the closing one keeps just its initial message |
| Server.Home.constructor | server.js:44-53 | the defaults of server.js:44-53: light off, fan 0, tank 60, pump off, no smoke, empty climate, no fetch yet, no clients |
| Server.Home.Broadcast | server.js:232-237 | the message is appended once to every open client's outbox and to no closed one, and no client's state otherwise changes |
| Server.Home.Connect | server.js:239-242 | the new client is registered, and the first and only thing it has received is the full current state as a `status_update` |
| Server.Home.Disconnect | server.js:267 | the closed client leaves the registry, exactly the others stay, and the device state is untouched |
| Server.Home.PostLight | server.js:178-195 | a boolean status sets the light, broadcasts a light `device` message and returns the new value; anything else is a 400 with the state and every client unchanged |
| Server.Home.PostFan | server.js:197-215 | exactly the integers 0..5 are stored and broadcast; every other speed is a 400 with nothing changed or sent |
| Server.Home.PostUpdate | server.js:217-226 | never rejects; the new state is the telemetry merge of the old one, and that full state is broadcast |
| Server.Home.OnMessage | server.js:244-265 | a decoded light or fan command is applied and announced to every open client including the sender; malformed or unrecognised frames change and send nothing |
| Server.Home.FetchWeather | server.js:57-166 | the new climate and fetch time are `Refresh` of the old ones for the given outcome; the device fields and the registry are untouched |
| Server.Home.GetStatus | server.js:171-176 | it refetches exactly when the cache is stale at the time of the request, and returns the full state after that refresh |
| PhoneUtils.GreedyCode | utils/phoneUtils.js:22-30 | the length of group 1 in the greedy match of `^(\+\d{1,m})(\d+)$`; its meaning is stated by GreedyIsLongest |
| PhoneUtils.IndiaPattern | utils/phoneUtils.js:17 | `^(\+91)(\d{10})$`: thirteen characters, `+91` then ten digits (a definition) |
| PhoneUtils.GreedyIsLongest | utils/phoneUtils.js:22-30 | the modelled regex match exists exactly when some split matches `^(\+\d{1,m})(\d+)$`, and it takes the longest code such a split allows |
| PhoneUtils.ParsePhoneNumber | utils/phoneUtils.js:12-33 | a falsy value gives two empty parts; `+` and 12 digits splits after `+` and two digits; other `+`-digit strings with at least two digits take a code of one to three digits (greedy), leaving at least one digit; anything else is all local number |
| PhoneUtils.NormalizeForStorage | utils/phoneUtils.js:41-44 | the stored form is a suffix of the input, empty for a missing one |
| PhoneUtils.FormatForSending | utils/phoneUtils.js:53-55 | the result is the code followed by the local number |
| PhoneUtils.ParseFormatRoundTrip | utils/phoneUtils.js:12-55 | formatting the parsed parts of any non-empty string gives back that string |
| PhoneUtils.LocalPartNonEmpty | utils/phoneUtils.js:12-44 | a non-empty phone always has a non-empty stored form |
| PhoneUtils.IndiaSplit | utils/phoneUtils.js:17-25 | `+91` with ten digits splits into `+91` and those ten digits |
| PhoneUtils.ElevenDigitsTakeThreeDigitCode | utils/phoneUtils.js:21-30 | an eleven-digit `+1` number is split with a three-digit code by greed |
| NormalizePhone.TrimStart | middleware/normalizePhone.js:3 | the result is a suffix of the input, every removed character is whitespace, and it does not start with whitespace |
| NormalizePhone.TrimEnd | middleware/normalizePhone.js:3 | the result is a prefix of the input, every removed character is whitespace, and it does not end with whitespace |
| NormalizePhone.Trim | middleware/normalizePhone.js:3 | the trimmed string is a slice of the input with only whitespace before and after it, and it neither starts nor ends with whitespace |
| NormalizePhone.Digits | middleware/normalizePhone.js:6 | the result holds only digits, is no longer than the input, and is the input itself when that has only digits (which characters it keeps is stated by DigitsIsFilter) |
| NormalizePhone.DigitsIsFilter | middleware/normalizePhone.js:5-6 | keeping the digits removes exactly the non-digits: each digit occurs in the result as often as in the input, and nothing else occurs |
| NormalizePhone.DigitsAppend | middleware/normalizePhone.js:6 | keeping the digits distributes over concatenation; with DigitsIsFilter on single characters this makes the result the input's digits in their order |
| NormalizePhone.StripNonDigits | middleware/normalizePhone.js:6 | the result is the leading `+` if there is one followed by every digit of the input in order; it holds only digits and at most a leading `+`, and a string already of that shape is unchanged |
| NormalizePhone.CountryCodePrefix | middleware/normalizePhone.js:9 | a match exists exactly when the string starts with `+` and a digit; it is a prefix, `+` followed by one to three digits, and as long as the greedy `\d{1,3}` allows: three digits, the string's end, or a non-digit after it |
| NormalizePhone.Repeats | middleware/normalizePhone.js:13 | how many copies of the code the greedy `^(cc)+` consumes: the string starts with exactly that many copies and no further copy follows them |
| NormalizePhone.CollapseCountryCode | middleware/normalizePhone.js:8-14 | without a country-code match the string is unchanged; with one, the input is one or more copies of the code followed by the rest of the result, the result is one copy followed by that rest, and the rest does not start with another copy |
| NormalizePhone.CollapseIsIdentity | middleware/normalizePhone.js:8-14 | after stripping, the duplicate-code collapse never changes the string |
| NormalizePhone.EnsurePlus | middleware/normalizePhone.js:17-19 | the result starts with `+`, and a string that already does is unchanged |
| NormalizePhone.Normalize | middleware/normalizePhone.js:2-21 | the rewritten phone is `+` followed by the digits of the trimmed input, in order |
| NormalizePhone.PlusDigitsIsStripped | middleware/normalizePhone.js:6 | a `+`-digits string is of the shape stripping leaves unchanged |
| NormalizePhone.NormalizeIdempotent | middleware/normalizePhone.js:1-24 | normalising twice gives the same result as normalising once |
| NormalizePhone.DuplicateCodeNotCollapsed | middleware/normalizePhone.js:8-14 | `"+91+91"` normalises to `"+9191"` |
| NormalizePhone.NormalizeRequest | middleware/normalizePhone.js:1-24 | a falsy phone is left alone and a string phone is replaced by its normalised form, each with `next` called exactly once; a truthy non-string phone throws at `trim`, unchanged and without `next` |
| OtpService.OtpStore.constructor | services/otpServices.js:4 | the store starts empty |
| OtpService.OtpStore.SendOtp | services/otpServices.js:8-23 | the code is stored under the key with an expiry thirty minutes on, replacing any earlier record, and the reply is success |
| OtpService.OtpStore.VerifyOtp | services/otpServices.js:25-48 | a missing record, an expired one (which is deleted), a wrong code, or success; success exactly for a live record with the same code; a login verification consumes the record, a registration one keeps it |
| OtpService.OtpStore.HasValidOtp | services/otpServices.js:51-66 | true exactly for a live record, without comparing codes; an expired record is deleted |
| OtpService.OtpStore.ClearOtp | services/otpServices.js:69-76 | the key's record is removed and nothing else changes |
| OtpService.RegistrationThenLogin | services/otpServices.js:8-48 | within thirty minutes a code passes registration verification, still counts as valid, passes login verification, and is then gone |
| OtpService.ExpiredCodeIsDropped | services/otpServices.js:33-36 | one millisecond past expiry the code is rejected as expired and its record removed |
| AuthController.FindOne | controllers/authController.js:27-28 | the lookup returns a stored user matching the filter, or none when no user matches |
| AuthController.EmailPatternTest | controllers/authController.js:19-20 | the e-mail regex as a search for the `@` and `.` positions with whitespace-free, `@`-free text around them (its language is stated by EmailPatternMeansShape) |
| AuthController.EmailPatternMeansShape | controllers/authController.js:19-22 | the e-mail pattern accepts exactly the strings with no whitespace, exactly one `@` with text before it, and a `.` after the `@` with text on both sides |
| AuthController.Contact | controllers/authController.js:91-94 | the contact (`phone`, falling back to `email`) is the phone when it is non-empty, else the e-mail when that is non-empty, else absent |
| AuthController.LoginQuery | controllers/authController.js:101-105 | the lookup is by stored phone exactly when a phone is given, else by e-mail when one is given, else there is no query |
| AuthController.OtpKey | controllers/authController.js:37-38 | the key for the code is the incoming phone itself, so the `'+91'` default never applies, and it is empty without a phone |
| AuthController.EmailLoginKeysDiffer | controllers/authController.js:100-141 | for a log-in by e-mail only, the key the code is stored under differs from the key it is verified under |
| AuthController.PhoneLoginKeysAgree | controllers/authController.js:100-141 | for a log-in with a phone, the key the code is stored under is the key it is verified under |
| AuthController.NewUser | controllers/authController.js:50 | the user saved on registration: the given name, e-mail and address, and the phone in storage form |
| AuthController.UserStore.Save | controllers/authController.js:50-51 | a successful save appends the user, a failed one changes nothing |
| AuthController.RegisterUser | controllers/authController.js:8-62 | checks in order: fields, e-mail, existing user by stored phone, then a live code under the incoming phone; each failure returns its 400 and changes no later store; a failed save is a 500 that keeps the code; success saves the user with the stored phone and only then clears the code |
| AuthController.SendOtp | controllers/authController.js:77-124 | registration: 400 for an existing user, 400 without any contact, otherwise the code is stored under the contact (`phone`, falling back to `email`); log-in: 400 without a query, a not-found reply for an unknown user, otherwise the code is stored under the key formed from the phone |
| AuthController.VerifyOtp | controllers/authController.js:127-175 | 400 without any contact; the code is checked under the contact (`phone`, falling back to `email`); a failure is passed through with status 200: "OTP not found or expired" with the store unchanged, "OTP expired" with that one record deleted, or "Invalid OTP" with the store unchanged; a registration success returns at once and keeps the code; a login success consumes it and answers 404 or the user found by stored phone or e-mail |
| AuthController.EmailRegistrationCodeLogsIn | controllers/authController.js:84-96 | a code requested through the registration branch with only an e-mail is stored under the e-mail, and a log-in verification of it with that e-mail returns the user |
| AuthController.EmailLoginCannotVerify | controllers/authController.js:100-141 | an e-mail log-in of an existing user gets "OTP sent", but verifying the same code at once answers "OTP not found or expired" |
| DeviceController.AddDevice | controllers/deviceController.js:19-32 | no `espId` is a 400 without calling the database; otherwise exactly one create call, answered 201, 409 for a duplicate entry, or 500 |
| DeviceController.GoodStatus | controllers/deviceController.js:38 | `includes` on `["ON", "OFF"]` compares strictly, so only those two strings pass (the contracts of ToggleDevice use it) |
| DeviceController.ToggleDevice | controllers/deviceController.js:34-46 | only the strings `"ON"`/`"OFF"` pass the guard; a passing request makes one update call and ends in 404 when it resolves, 500 when it rejects |
| DeviceController.ToggleNeverSucceeds | controllers/deviceController.js:34-46 | every toggle request is answered 400, 404 or 500 |
| DeviceController.EspHeartbeat | controllers/deviceController.js:49-54 | no `espId` is a 400 without calling the database; otherwise one update call, acknowledged exactly when it resolves, with no reply when it rejects |
| DeviceController.Lower | controllers/deviceController.js:78 | lower-casing keeps the length and maps exactly the letters A-Z to a-z |
| DeviceController.Matches | controllers/deviceController.js:78-81 | the `find` test: the type column equals the word, or the name exists and its lower-cased form contains the word |
| DeviceController.FindFirst | controllers/deviceController.js:78 | `find` returns the first device whose type is the word or whose lower-cased name contains it, or none when no device matches |
| DeviceController.StatusOrOff | controllers/deviceController.js:79-83 | the status with "off" in place of a falsy one: never empty, and "off" exactly when the status is missing, empty or already "off" |
| DeviceController.CommandFor | controllers/deviceController.js:73-91 | the light status comes from the first light device and the fan status and speed from the first fan device; each falls back to "off" and 0 when there is no match or the value is falsy |
| DeviceController.GetCommandForEsp | controllers/deviceController.js:56-92 | no `espId` is a 400; without MySQL the built-in list gives everything off; otherwise one query, with no reply if it rejects, a 404 for no rows, or the derived command |
| DeviceController.OneDeviceBothRoles | controllers/deviceController.js:78-85 | one device named "Fan Light" serves as both the light and the fan |
| DeviceController.FirstMatchWithDefaults | controllers/deviceController.js:74-85 | devices found by type with an empty status and a zero speed give "off", "off", 0 |

## Left out

- HTTP and Express wiring are not modelled: CORS, static files, routing, `server.listen`. Each handler is modelled on its request fields.
- The WebSocket transport and `JSON.stringify`/`JSON.parse` are not modelled. Messages are values, an inbound frame is `Malformed` or its parsed fields, and a client's `readyState` is one flag.
- The periodic `setInterval` refresh is not modelled as a schedule. Each run is one `FetchWeather` call. Two runs (a timer run and a status read, say) can overlap while each awaits `fetch` (server.js:62, 172-173). The model still covers them, because everything a run writes after its last `await` (server.js:65-161) is synchronous, so each run's writes form one `FetchWeather` step. Interleavings are not modelled beyond that.
- The weather HTTP request is not modelled, nor are `Date.parse`, the ISO-prefix string test and the clock. They are inputs.
- Weather.HeatIndex: computed in exact arithmetic rather than IEEE doubles, so a result within rounding distance of a half may differ from the source. The same holds for every JSON number in the model, which is an exact real: `Math.round` in Js.Round, TempAfter, HumidityAt, PressureVisibility and TankLevelFrom may differ from the source at a value that double rounding moves across a `.5` boundary.
- The climate's `updatedAt` holds the fetch time in milliseconds instead of its ISO-8601 text.
- An hourly reading entry is a finite number or not a number. An infinite hourly value is not modelled.
- MySQL writes from the REST light and fan endpoints are not modelled. They sit in their own `try`, so a failed write never changes the state or the reply. The database tables, the ORM wrappers and `listMyDevices` are not modelled either; `listMyDevices` passes one read straight through.
- The auth middleware (`jwt.verify`), JWT signing and the profile lookup after a successful log-in are not modelled. AuthController.VerifyOtp: the log-in success reply carries the user with an empty message, without the token and profiles.
- The `catch` paths of the auth handlers are not modelled for `findOne` failures. A failed `save()` is modelled.
- OtpService.OtpStore.SendOtp: a failure of the code generator (which is not shown) is caught by `sendOTP` itself (services/otpServices.js:19-21). It then returns failure with "Failed to send OTP" and stores nothing, and the handlers pass that on with status 200. The model always generates a code, so this path is not modelled.
- AuthController.FindOne: returns the first stored match. The models/User.js schema is not part of this model.
- SMS and e-mail delivery are not modelled. `sendSMS` reports failures in its return value and never throws, so the code is always stored.
- The code generator (random) is not modelled: the code is an input.
- Environment configuration is not modelled: the coordinates and the port.
- Request fields of the auth handlers are strings or absent. Non-string JSON values there are not modelled, and `isRegistration` is its truthiness. The phone-normalising middleware does take the phone as any JSON value: a truthy non-string one throws at `trim` (middleware/normalizePhone.js:3) and `next` is not called; the error response the framework then sends is not modelled.
- AuthController.RegisterUser, AuthController.SendOtp, AuthController.VerifyOtp: each handler is modelled as one atomic step. In the source each awaits `findOne` (controllers/authController.js:27, 85, 106, 150), `save` (line 51) or `sendOTP` (lines 96, 116), and other requests can run at those points. So two registrations for the same phone can both pass the existing-user check, and the `clearOTP` of line 55 runs after an await. These interleavings are not modelled.
- `console` logging is not modelled, including the log of the generated code itself in services/otpServices.js:11.
- DeviceController.Lower: ASCII letters only. Unicode case mapping beyond A-Z is not modelled.
- Server.Home.PostLight, Server.Home.PostFan: the reply is built from the state after `await pool.query` (server.js:188, 194 and 208, 214). A command from another request that runs during that await can change the value in the reply. The model returns the value just written, which is the reply when no other request runs in between.
- The `NoReply` case of `DeviceController.Reply` stands for a handler that sends nothing itself. `espHeartbeat` rejects outside a `try`. `getCommandForEsp` awaits a promise whose async executor rejects, so that promise never settles. What follows depends on the runtime and is not modelled: Express 4 does not catch a rejected handler, Express 5 answers 500, and Node 15 and later end the process on an unhandled rejection by default.
