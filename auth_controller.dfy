/**
 * The decision rules of the authentication handlers: required fields and
 * the e-mail pattern for registration, the fixed order of the registration
 * checks, and which key (phone or e-mail) each handler uses for the user
 * lookup and for the one-time code.
 *
 * Request fields are strings or absent; the user collection is a sequence of
 * records searched by `findOne`, the code store is `OtpService.OtpStore`,
 * and whether a `save()` succeeds is a parameter. Token signing and the
 * profile lookup after a login are not part of this model.
 */
module AuthController {
  import opened Common
  import opened Js
  import opened PhoneUtils
  import opened OtpService

  /** JavaScript truthiness of a string field. */
  predicate Present(f: Option<string>) {
    f.Some? && f.value != ""
  }

  datatype User = User(name: string, phone: string, email: string, address: string)

  /** `{ phone }` or `{ email }` as a `findOne` filter. */
  datatype Query = ByPhone(phone: string) | ByEmail(email: string)

  predicate Matches(u: User, q: Query) {
    match q
    case ByPhone(p) => u.phone == p
    case ByEmail(e) => u.email == e
  }

  /** `User.findOne(q)`: the first stored user matching `q`. */
  function FindOne(users: seq<User>, q: Query): (r: Option<User>)
    ensures r.Some? ==> r.value in users && Matches(r.value, q)
    ensures r.None? ==> forall k :: 0 <= k < |users| ==> !Matches(users[k], q)
  {
    if users == [] then None
    else if Matches(users[0], q) then Some(users[0])
    else FindOne(users[1..], q)
  }

  /** An HTTP reply: status code, `success`, `message`, and the user when one is returned. */
  datatype Response = Response(status: int, success: bool, message: string, user: Option<User>)

  // ---------------------------------------------------------------------
  // The e-mail pattern
  // ---------------------------------------------------------------------

  /** A run of `[^\s@]`. */
  predicate Plain(s: string) {
    forall k :: 0 <= k < |s| ==> !IsSpace(s[k]) && s[k] != '@'
  }

  /** `/^[^\s@]+@[^\s@]+\.[^\s@]+$/.test(s)`: some split `a@b.c` with `a`,
      `b`, `c` non-empty runs of `[^\s@]`. */
  predicate EmailPatternTest(s: string) {
    exists i, j | 0 < i < j < |s| - 1 ::
      s[i] == '@' && s[j] == '.' && i + 1 < j
      && Plain(s[..i]) && Plain(s[i + 1..j]) && Plain(s[j + 1..])
  }

  /** The same language described directly: no whitespace, exactly one `@`
      with something before it, and a `.` after it with text on both sides. */
  ghost predicate EmailShape(s: string) {
    && (forall k :: 0 <= k < |s| ==> !IsSpace(s[k]))
    && exists i :: 0 < i < |s| && s[i] == '@'
         && (forall k :: 0 <= k < |s| && s[k] == '@' ==> k == i)
         && exists j :: i + 1 < j < |s| - 1 && s[j] == '.'
  }

  lemma EmailPatternMeansShape(s: string)
    ensures EmailPatternTest(s) <==> EmailShape(s)
  {
    if EmailPatternTest(s) {
      var i, j :| 0 < i < j < |s| - 1 && s[i] == '@' && s[j] == '.' && i + 1 < j
        && Plain(s[..i]) && Plain(s[i + 1..j]) && Plain(s[j + 1..]);
      forall k | 0 <= k < |s| ensures !IsSpace(s[k]) && (s[k] == '@' ==> k == i) {
        if k < i { assert s[k] == s[..i][k]; }
        else if i < k < j { assert s[k] == s[i + 1..j][k - i - 1]; }
        else if j < k { assert s[k] == s[j + 1..][k - j - 1]; }
      }
      assert EmailShape(s);
    }
    if EmailShape(s) {
      var i :| 0 < i < |s| && s[i] == '@' && (forall k :: 0 <= k < |s| && s[k] == '@' ==> k == i)
        && exists j :: i + 1 < j < |s| - 1 && s[j] == '.';
      var j :| i + 1 < j < |s| - 1 && s[j] == '.';
      assert Plain(s[..i]) by {
        forall k | 0 <= k < i ensures !IsSpace(s[..i][k]) && s[..i][k] != '@' { assert s[..i][k] == s[k]; }
      }
      var b, c := s[i + 1..j], s[j + 1..];
      assert Plain(b) by {
        forall k | 0 <= k < |b| ensures !IsSpace(b[k]) && b[k] != '@' { assert b[k] == s[i + 1 + k]; }
      }
      assert Plain(c) by {
        forall k | 0 <= k < |c| ensures !IsSpace(c[k]) && c[k] != '@' { assert c[k] == s[j + 1 + k]; }
      }
    }
  }

  // ---------------------------------------------------------------------
  // Key selection
  // ---------------------------------------------------------------------

  /** `phone || email`, when truthy. */
  function Contact(phone: Option<string>, email: Option<string>): (r: Option<string>)
    ensures r.Some? <==> Present(phone) || Present(email)
    ensures Present(phone) ==> r == phone
    ensures !Present(phone) && Present(email) ==> r == email
  {
    if Present(phone) then phone else if Present(email) then email else None
  }

  /** Lines 101-102 and 138, 149: look up by the stored (local) phone when
      there is one, otherwise by e-mail, otherwise no query. */
  function LoginQuery(phone: Option<string>, email: Option<string>): (r: Option<Query>)
    ensures (r.Some? && r.value.ByPhone?) <==> Present(phone)
    ensures Present(phone) ==> r == Some(ByPhone(NormalizeForStorage(phone)))
    ensures !Present(phone) && Present(email) ==> r == Some(ByEmail(email.value))
    ensures r.None? <==> !Present(phone) && !Present(email)
  {
    assert Present(phone) ==> NormalizeForStorage(phone) != "" by {
      if Present(phone) { LocalPartNonEmpty(phone.value); }
    }
    var normalized := NormalizeForStorage(phone);
    if normalized != "" then Some(ByPhone(normalized))
    else if Present(email) then Some(ByEmail(email.value))
    else None
  }

  /** Lines 37-38 and 114-115: the key a code is stored or checked under,
      `formatForSending` of the parsed phone. The `'+91'` default never
      applies because the parse always returns a string code, so the key is
      the incoming phone itself, or "" when there is none. */
  function OtpKey(phone: Option<string>): (r: string)
    ensures Present(phone) ==> r == phone.value
    ensures !Present(phone) ==> r == ""
  {
    var parsed := ParsePhoneNumber(phone);
    assert Present(phone) ==> FormatForSending(parsed.countryCode, parsed.localNumber) == phone.value by {
      if Present(phone) { ParseFormatRoundTrip(phone.value); }
    }
    FormatForSending(parsed.countryCode, parsed.localNumber)
  }

  /** A login by e-mail stores its code under "" while the verification
      looks it up under the e-mail, so the two never meet. */
  lemma EmailLoginKeysDiffer(phone: Option<string>, email: Option<string>)
    requires !Present(phone) && Present(email)
    ensures LoginQuery(phone, email) == Some(ByEmail(email.value))
    ensures Contact(phone, email) == Some(email.value) && OtpKey(phone) != email.value
  {
  }

  /** A login by phone stores and verifies under the same key. */
  lemma PhoneLoginKeysAgree(phone: Option<string>, email: Option<string>)
    requires Present(phone)
    ensures Contact(phone, email) == Some(OtpKey(phone))
  {
  }

  // ---------------------------------------------------------------------
  // Handlers
  // ---------------------------------------------------------------------

  datatype Registration = Registration(name: Option<string>, phone: Option<string>, email: Option<string>, address: Option<string>)

  predicate AllFieldsPresent(b: Registration) {
    Present(b.name) && Present(b.phone) && Present(b.email) && Present(b.address)
  }

  /** The user record `registerUser` saves: the phone without its country code. */
  function NewUser(b: Registration): User
    requires AllFieldsPresent(b)
  {
    User(b.name.value, NormalizeForStorage(b.phone), b.email.value, b.address.value)
  }

  class UserStore {
    var users: seq<User>

    constructor (users: seq<User>)
      ensures this.users == users
    {
      this.users := users;
    }

    /** `new User(...).save()`; whether the database accepts it is `succeeds`. */
    method Save(u: User, succeeds: bool) returns (saved: bool)
      modifies this
      ensures saved == succeeds
      ensures users == if succeeds then old(users) + [u] else old(users)
    {
      if succeeds {
        users := users + [u];
      }
      saved := succeeds;
    }
  }

  const AllFieldsRequired := Response(400, false, "All fields are required", None)
  const InvalidEmail := Response(400, false, "Please enter a valid email address", None)
  const UserExists := Response(400, false, "User already exists", None)
  const OtpRequired := Response(400, false, "OTP verification required. Please verify your phone number first.", None)
  const RegisterError := Response(500, false, "Error registering user", None)
  const ContactRequired := Response(400, false, "Phone or email required", None)

  /** `registerUser` (lines 8-62): fields, e-mail, existing user by stored
      phone, then a live code under the incoming phone; a failed check stops
      everything after it, and the code is cleared only once the user is saved. */
  method RegisterUser(b: Registration, store: UserStore, otps: OtpStore, now: int, saveSucceeds: bool)
    returns (resp: Response)
    modifies store, otps
    ensures !AllFieldsPresent(b) ==> resp == AllFieldsRequired && unchanged(store, otps)
    ensures AllFieldsPresent(b) && !EmailPatternTest(b.email.value) ==> resp == InvalidEmail && unchanged(store, otps)
    ensures AllFieldsPresent(b) && EmailPatternTest(b.email.value) ==>
      var taken := FindOne(old(store.users), ByPhone(NormalizeForStorage(b.phone))).Some?;
      var key := b.phone.value;
      var live := key in old(otps.records) && Live(old(otps.records)[key], now);
      && (taken ==> resp == UserExists && unchanged(store, otps))
      && (!taken && !live ==> resp == OtpRequired && unchanged(store) && otps.records == old(otps.records) - {key})
      && (!taken && live && !saveSucceeds ==> resp == RegisterError && store.users == old(store.users) && otps.records == old(otps.records))
      && (!taken && live && saveSucceeds ==>
            resp == Response(200, true, "User registered successfully", Some(NewUser(b)))
            && store.users == old(store.users) + [NewUser(b)]
            && otps.records == old(otps.records) - {key})
  {
    if !AllFieldsPresent(b) {
      return AllFieldsRequired;
    }
    if !EmailPatternTest(b.email.value) {
      return InvalidEmail;
    }
    var phone := NormalizeForStorage(b.phone);
    if FindOne(store.users, ByPhone(phone)).Some? {
      return UserExists;
    }
    var parsed := ParsePhoneNumber(b.phone);
    var fullPhoneNumber := FormatForSending(parsed.countryCode, parsed.localNumber);
    ParseFormatRoundTrip(b.phone.value);
    var isOtpValid := otps.HasValidOtp(fullPhoneNumber, now);
    if !isOtpValid {
      return OtpRequired;
    }
    var user := User(b.name.value, phone, b.email.value, b.address.value);
    var saved := store.Save(user, saveSucceeds);
    if !saved {
      return RegisterError;
    }
    otps.ClearOtp(fullPhoneNumber);
    resp := Response(200, true, "User registered successfully", Some(user));
  }

  datatype OtpRequest = OtpRequest(phone: Option<string>, email: Option<string>, isRegistration: bool)

  /** `sendOtp` (lines 77-124). For a registration the code goes to
      `phone || email` after an existing-user check by stored phone; for a
      login it goes to `OtpKey(phone)` once the user is found. */
  method SendOtp(b: OtpRequest, users: seq<User>, otps: OtpStore, otp: string, now: int)
    returns (resp: Response)
    modifies otps
    ensures b.isRegistration ==>
      var taken := FindOne(users, ByPhone(NormalizeForStorage(b.phone))).Some?;
      var contact := Contact(b.phone, b.email);
      && (taken ==> resp == UserExists && unchanged(otps))
      && (!taken && contact.None? ==> resp == ContactRequired && unchanged(otps))
      && (!taken && contact.Some? ==>
            resp == Response(200, true, "OTP sent successfully", None)
            && otps.records == old(otps.records)[contact.value := Record(otp, now + OtpExpiryMs)])
    ensures !b.isRegistration ==>
      var query := LoginQuery(b.phone, b.email);
      && (query.None? ==> resp == ContactRequired && unchanged(otps))
      && (query.Some? && FindOne(users, query.value).None? ==>
            resp == Response(200, false, "User not found. Please register first.", None) && unchanged(otps))
      && (query.Some? && FindOne(users, query.value).Some? ==>
            resp == Response(200, true, "OTP sent successfully", None)
            && otps.records == old(otps.records)[OtpKey(b.phone) := Record(otp, now + OtpExpiryMs)])
  {
    if b.isRegistration {
      var normalizedPhone := NormalizeForStorage(b.phone);
      if FindOne(users, ByPhone(normalizedPhone)).Some? {
        return UserExists;
      }
      var contact := Contact(b.phone, b.email);
      if contact.None? {
        return ContactRequired;
      }
      var r := otps.SendOtp(contact.value, otp, now);
      resp := Response(200, r.success, r.message, None);
    } else {
      var query := LoginQuery(b.phone, b.email);
      if query.None? {
        return ContactRequired;
      }
      if FindOne(users, query.value).None? {
        return Response(200, false, "User not found. Please register first.", None);
      }
      var parsed := ParsePhoneNumber(b.phone);
      var phoneToSend := FormatForSending(parsed.countryCode, parsed.localNumber);
      var r := otps.SendOtp(phoneToSend, otp, now);
      resp := Response(200, r.success, r.message, None);
    }
  }

  datatype VerifyRequest = VerifyRequest(phone: Option<string>, email: Option<string>, otp: string, isRegistration: bool)

  /** `verifyOtp` (lines 127-175): the code is checked under `phone || email`;
      a registration returns right after a successful check, a login then
      looks the user up by stored phone or e-mail. */
  method VerifyOtp(b: VerifyRequest, users: seq<User>, otps: OtpStore, now: int) returns (resp: Response)
    modifies otps
    ensures Contact(b.phone, b.email).None? ==> resp == ContactRequired && unchanged(otps)
    ensures Contact(b.phone, b.email).Some? ==>
      var key := Contact(b.phone, b.email).value;
      var verified := key in old(otps.records) && Live(old(otps.records)[key], now) && old(otps.records)[key].otp == b.otp;
      var query := LoginQuery(b.phone, b.email);
      && query.Some?
      && (!verified ==> resp.status == 200 && !resp.success)
      && (key !in old(otps.records) ==>
            resp == Response(200, false, "OTP not found or expired", None) && otps.records == old(otps.records))
      && (key in old(otps.records) && !Live(old(otps.records)[key], now) ==>
            resp == Response(200, false, "OTP expired", None) && otps.records == old(otps.records) - {key})
      && (key in old(otps.records) && Live(old(otps.records)[key], now) && old(otps.records)[key].otp != b.otp ==>
            resp == Response(200, false, "Invalid OTP", None) && otps.records == old(otps.records))
      && (verified && b.isRegistration ==>
            resp == Response(200, true, "OTP verified. Please complete registration.", None)
            && otps.records == old(otps.records))
      && (verified && !b.isRegistration ==> otps.records == old(otps.records) - {key})
      && (verified && !b.isRegistration && FindOne(users, query.value).None? ==>
            resp == Response(404, false, "User not found", None))
      && (verified && !b.isRegistration && FindOne(users, query.value).Some? ==>
            resp == Response(200, true, "", FindOne(users, query.value)))
  {
    var contact := Contact(b.phone, b.email);
    if contact.None? {
      return ContactRequired;
    }
    var r := otps.VerifyOtp(contact.value, b.otp, b.isRegistration, now);
    if !r.success {
      return Response(200, r.success, r.message, None);
    }
    if b.isRegistration {
      return Response(200, true, "OTP verified. Please complete registration.", None);
    }
    var query := LoginQuery(b.phone, b.email);
    var user := FindOne(users, query.value);
    if user.None? {
      return Response(404, false, "User not found", None);
    }
    resp := Response(200, true, "", user);
  }

  /** E-mail login end to end: the user exists and the right code is sent
      back at once, yet verification cannot find it. */
  method EmailLoginCannotVerify(email: string, code: string, now: int)
    returns (sent: Response, verified: Response)
    requires email != ""
    ensures sent == Response(200, true, "OTP sent successfully", None)
    ensures verified == Response(200, false, "OTP not found or expired", None)
  {
    var otps := new OtpStore();
    var users := [User("name", "7608045737", email, "address")];
    sent := SendOtp(OtpRequest(None, Some(email), false), users, otps, code, now);
    assert otps.records == map[OtpKey(None) := Record(code, now + OtpExpiryMs)];
    verified := VerifyOtp(VerifyRequest(None, Some(email), code, false), users, otps, now);
  }

  /** E-mail only, through the registration branch: the code is stored under
      the e-mail itself (`phone || email`), so a later log-in verification
      with that e-mail finds it and returns the user. */
  method EmailRegistrationCodeLogsIn(email: string, code: string, now: int)
    returns (sent: Response, verified: Response)
    requires email != ""
    ensures sent == Response(200, true, "OTP sent successfully", None)
    ensures verified == Response(200, true, "", Some(User("name", "7608045737", email, "address")))
  {
    var otps := new OtpStore();
    var users := [User("name", "7608045737", email, "address")];
    sent := SendOtp(OtpRequest(None, Some(email), true), users, otps, code, now);
    assert otps.records == map[email := Record(code, now + OtpExpiryMs)];
    verified := VerifyOtp(VerifyRequest(None, Some(email), code, false), users, otps, now);
  }
}
