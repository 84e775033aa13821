/**
 * Splitting a full phone number into a country code and a local number, as
 * three anchored regular expressions tried in order, and joining them back.
 *
 * A regular expression `^(\+\d{1,m})(\d+)$` is modelled by its greedy match:
 * the code takes as many digits as it can (at most `m`) while leaving at
 * least one digit for the local part. `RegexSplit` states what a match of the
 * pattern is, and `GreedyIsLongest` shows the model picks the longest code.
 */
module PhoneUtils {
  import opened Common
  import opened Js

  datatype Parsed = Parsed(countryCode: string, localNumber: string)

  /** `+` followed by digits only. */
  predicate PlusDigits(p: string) {
    |p| >= 1 && p[0] == '+' && AllDigits(p[1..])
  }

  /** `p[..c]`/`p[c..]` is a match of `^(\+\d{1,m})(\d+)$` with a code of `c` characters. */
  predicate RegexSplit(p: string, m: nat, c: nat) {
    PlusDigits(p) && 2 <= c <= m + 1 && c < |p|
  }

  /** The greedy match of `^(\+\d{1,m})(\d+)$`: the length of group 1. */
  function GreedyCode(p: string, m: nat): Option<nat> {
    if PlusDigits(p) && |p| >= 3 && m >= 1 then
      Some(if |p| - 1 < m + 1 then |p| - 1 else m + 1)
    else None
  }

  /** The greedy match exists exactly when some match does, and it takes the longest code. */
  lemma GreedyIsLongest(p: string, m: nat)
    ensures GreedyCode(p, m).Some? <==> exists c: nat :: RegexSplit(p, m, c)
    ensures GreedyCode(p, m).Some? ==>
      RegexSplit(p, m, GreedyCode(p, m).value) && forall c: nat :: RegexSplit(p, m, c) ==> c <= GreedyCode(p, m).value
  {
    if GreedyCode(p, m).Some? {
      assert RegexSplit(p, m, GreedyCode(p, m).value);
    }
  }

  /** `^(\+91)(\d{10})$`. */
  predicate IndiaPattern(p: string) {
    |p| == 13 && p[..3] == "+91" && AllDigits(p[3..])
  }

  /** `parsePhoneNumber` (lines 12-33). `fullPhone` is None when the argument
      is not a string. */
  function ParsePhoneNumber(fullPhone: Option<string>): (r: Parsed)
    ensures fullPhone.None? || fullPhone.value == "" ==> r == Parsed("", "")
    ensures fullPhone.Some? && fullPhone.value != "" ==>
      var p := fullPhone.value;
      var n := |p| - 1;
      && (PlusDigits(p) && n == 12 ==> r == Parsed(p[..3], p[3..]))
      && (PlusDigits(p) && n >= 2 && n != 12 ==>
            r == Parsed(p[..1 + (if n - 1 < 3 then n - 1 else 3)], p[1 + (if n - 1 < 3 then n - 1 else 3)..]))
      && (!(PlusDigits(p) && n >= 2) ==> r == Parsed("", p))
  {
    if fullPhone.None? || fullPhone.value == "" then Parsed("", "")
    else
      var p := fullPhone.value;
      if IndiaPattern(p) then Parsed(p[..3], p[3..])
      else
        var two := GreedyCode(p, 2);
        if two.Some? && |p| - two.value == 10 then Parsed(p[..two.value], p[two.value..])
        else
          var three := GreedyCode(p, 3);
          if three.Some? then Parsed(p[..three.value], p[three.value..])
          else Parsed("", p)
  }

  /** `normalizeForStorage` (lines 41-44): the local part, always a suffix of the input. */
  function NormalizeForStorage(fullPhone: Option<string>): (r: string)
    ensures fullPhone.None? ==> r == ""
    ensures fullPhone.Some? ==> |r| <= |fullPhone.value| && r == fullPhone.value[|fullPhone.value| - |r|..]
  {
    ParsePhoneNumber(fullPhone).localNumber
  }

  /** `formatForSending` (lines 53-55). */
  function FormatForSending(countryCode: string, localNumber: string): (r: string)
    ensures |r| == |countryCode| + |localNumber|
    ensures r[..|countryCode|] == countryCode && r[|countryCode|..] == localNumber
  {
    countryCode + localNumber
  }

  /** Parsing then formatting gives back every non-empty string. */
  lemma {:induction false} ParseFormatRoundTrip(p: string)
    requires p != ""
    ensures FormatForSending(ParsePhoneNumber(Some(p)).countryCode, ParsePhoneNumber(Some(p)).localNumber) == p
  {
    var r := ParsePhoneNumber(Some(p));
    assert r.countryCode + r.localNumber == p;
  }

  /** A non-empty string always yields a non-empty local part. */
  lemma LocalPartNonEmpty(p: string)
    requires p != ""
    ensures NormalizeForStorage(Some(p)) != ""
  {
  }

  /** The `+91` branch is subsumed: an Indian number splits the same way
      under the generic two-digit rule. */
  lemma IndiaSplit(local: string)
    requires |local| == 10 && AllDigits(local)
    ensures ParsePhoneNumber(Some("+91" + local)) == Parsed("+91", local)
  {
    var p := "+91" + local;
    assert p[..3] == "+91" && p[3..] == local;
    assert forall i :: 1 <= i < |p| ==> IsDigit(p[i]) by {
      forall i | 1 <= i < |p| ensures IsDigit(p[i]) {
        if i >= 3 { assert p[i] == local[i - 3]; }
      }
    }
    assert PlusDigits(p) by { assert forall i :: 0 <= i < |p[1..]| ==> p[1..][i] == p[i + 1]; }
  }

  /** An eleven-digit `+1` number gets a three-digit code by greed. */
  lemma ElevenDigitsTakeThreeDigitCode()
    ensures ParsePhoneNumber(Some("+14155552671")) == Parsed("+141", "55552671")
  {
    var p := "+14155552671";
    assert PlusDigits(p) by { assert forall i :: 0 <= i < |p[1..]| ==> IsDigit(p[1..][i]); }
    assert p[..4] == "+141" && p[4..] == "55552671";
  }
}
