/**
 * The in-memory one-time-code store: a map from a phone (or other contact
 * string) to the code sent and its expiry time. Time is a parameter (`now`,
 * epoch milliseconds), the code comes from the generator as an input, and
 * the SMS send is a step that reports its result without throwing, so the
 * store always happens.
 */
module OtpService {

  /** Thirty minutes. */
  const OtpExpiryMs: int := 30 * 60 * 1000

  datatype Record = Record(otp: string, expiresAt: int)

  /** `{ success, message }`. */
  datatype Reply = Reply(success: bool, message: string)

  /** A record is still usable at `now`: expiry is checked with a strict `<`. */
  predicate Live(r: Record, now: int) {
    !(r.expiresAt < now)
  }

  class OtpStore {
    var records: map<string, Record>

    constructor ()
      ensures records == map[]
    {
      records := map[];
    }

    /** `sendOTP` (lines 13-23): the send result is not inspected, and the new
        record replaces any earlier one for the same key. */
    method SendOtp(phone: string, otp: string, now: int) returns (r: Reply)
      modifies this
      ensures records == old(records)[phone := Record(otp, now + OtpExpiryMs)]
      ensures r == Reply(true, "OTP sent successfully")
    {
      var expiresAt := now + OtpExpiryMs;
      records := records[phone := Record(otp, expiresAt)];
      r := Reply(true, "OTP sent successfully");
    }

    /** `verifyOTP` (lines 25-48). */
    method VerifyOtp(phone: string, otp: string, isRegistration: bool, now: int) returns (r: Reply)
      modifies this
      ensures phone !in old(records) ==>
        r == Reply(false, "OTP not found or expired") && records == old(records)
      ensures phone in old(records) && !Live(old(records)[phone], now) ==>
        r == Reply(false, "OTP expired") && records == old(records) - {phone}
      ensures phone in old(records) && Live(old(records)[phone], now) && old(records)[phone].otp != otp ==>
        r == Reply(false, "Invalid OTP") && records == old(records)
      ensures phone in old(records) && Live(old(records)[phone], now) && old(records)[phone].otp == otp ==>
        r == Reply(true, "OTP verified successfully")
        && records == if isRegistration then old(records) else old(records) - {phone}
      ensures r.success <==> phone in old(records) && Live(old(records)[phone], now) && old(records)[phone].otp == otp
    {
      if phone !in records {
        return Reply(false, "OTP not found or expired");
      }
      var record := records[phone];
      if record.expiresAt < now {
        records := records - {phone};
        return Reply(false, "OTP expired");
      }
      if record.otp != otp {
        return Reply(false, "Invalid OTP");
      }
      if !isRegistration {
        records := records - {phone};
      }
      r := Reply(true, "OTP verified successfully");
    }

    /** `hasValidOTP` (lines 51-66): never compares codes; an expired record is dropped. */
    method HasValidOtp(phone: string, now: int) returns (valid: bool)
      modifies this
      ensures valid <==> phone in old(records) && Live(old(records)[phone], now)
      ensures records == if phone in old(records) && !valid then old(records) - {phone} else old(records)
    {
      if phone !in records {
        return false;
      }
      if records[phone].expiresAt < now {
        records := records - {phone};
        return false;
      }
      valid := true;
    }

    /** `clearOTP` (lines 69-76). */
    method ClearOtp(phone: string)
      modifies this
      ensures records == old(records) - {phone}
    {
      records := records - {phone};
    }
  }

  /** The registration flow on a fresh store: a code sent at `sentAt` is
      accepted at any `later` up to thirty minutes on, stays for the
      registration check, and is consumed by a login verification, after
      which the same code is not found. */
  method RegistrationThenLogin(phone: string, code: string, sentAt: int, later: int)
    returns (registration: Reply, stillValid: bool, login: Reply, again: Reply)
    requires sentAt <= later <= sentAt + OtpExpiryMs
    ensures registration.success && stillValid && login.success
    ensures again == Reply(false, "OTP not found or expired")
  {
    var store := new OtpStore();
    var _ := store.SendOtp(phone, code, sentAt);
    registration := store.VerifyOtp(phone, code, true, later);
    stillValid := store.HasValidOtp(phone, later);
    login := store.VerifyOtp(phone, code, false, later);
    again := store.VerifyOtp(phone, code, false, later);
  }

  /** A code is rejected one millisecond after its expiry, and the record is dropped. */
  method ExpiredCodeIsDropped(phone: string, code: string, sentAt: int)
    returns (r: Reply, left: bool)
    ensures r == Reply(false, "OTP expired") && !left
  {
    var store := new OtpStore();
    var _ := store.SendOtp(phone, code, sentAt);
    r := store.VerifyOtp(phone, code, false, sentAt + OtpExpiryMs + 1);
    left := phone in store.records;
  }
}
