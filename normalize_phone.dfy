/**
 * The request middleware that rewrites `req.body.phone` into `+digits` form
 * before the authentication handlers see it: trim, drop every character
 * except digits and a leading `+`, collapse a repeated country code, and
 * force a leading `+`.
 */
module NormalizePhone {
  import opened Common
  import opened Js
  import opened PhoneUtils

  /** At most one `+`, and only at the front; every other character a digit. */
  predicate Stripped(s: string) {
    forall i :: 0 <= i < |s| ==> IsDigit(s[i]) || (i == 0 && s[i] == '+')
  }

  function TrimStart(s: string): (r: string)
    ensures |r| <= |s| && r == s[|s| - |r|..]
    ensures forall i :: 0 <= i < |s| - |r| ==> IsSpace(s[i])
    ensures r != "" ==> !IsSpace(r[0])
    ensures (s == "" || !IsSpace(s[0])) ==> r == s
  {
    if s != [] && IsSpace(s[0]) then
      var r := TrimStart(s[1..]);
      assert forall i :: 1 <= i < |s| - |r| ==> s[i] == s[1..][i - 1];
      r
    else s
  }

  function TrimEnd(s: string): (r: string)
    ensures |r| <= |s| && r == s[..|r|]
    ensures forall i :: |r| <= i < |s| ==> IsSpace(s[i])
    ensures r != "" ==> !IsSpace(r[|r| - 1])
    ensures (s == "" || !IsSpace(s[|s| - 1])) ==> r == s
  {
    if s != [] && IsSpace(s[|s| - 1]) then
      var r := TrimEnd(s[..|s| - 1]);
      assert forall i :: |r| <= i < |s| - 1 ==> s[i] == s[..|s| - 1][i];
      r
    else s
  }

  /** `r` is the slice of `s` from `k` on, with only whitespace before and after it. */
  predicate TrimmedAt(s: string, r: string, k: nat) {
    && k + |r| <= |s| && r == s[k..k + |r|]
    && (forall i :: 0 <= i < k ==> IsSpace(s[i]))
    && (forall i :: k + |r| <= i < |s| ==> IsSpace(s[i]))
  }

  lemma TrimmedAtSlices(s: string, t: string, r: string, k: nat)
    requires k <= |s| && t == s[k..] && |r| <= |t| && r == t[..|r|]
    requires forall i :: 0 <= i < k ==> IsSpace(s[i])
    requires forall i :: |r| <= i < |t| ==> IsSpace(t[i])
    ensures TrimmedAt(s, r, k)
  {
    forall i | k + |r| <= i < |s| ensures IsSpace(s[i]) {
      assert s[i] == t[i - k];
    }
  }

  /** `String.prototype.trim`: the slice of `s` left once the whitespace at
      both ends is removed. */
  function Trim(s: string): (r: string)
    ensures r != "" ==> !IsSpace(r[0]) && !IsSpace(r[|r| - 1])
    ensures exists k: nat :: TrimmedAt(s, r, k)
  {
    var t := TrimStart(s);
    var r := TrimEnd(t);
    TrimmedAtSlices(s, t, r, |s| - |t|);
    r
  }

  /** The digits of `s`, in order. */
  function Digits(s: string): (r: string)
    ensures AllDigits(r) && |r| <= |s|
    ensures AllDigits(s) ==> r == s
  {
    if s == [] then []
    else (if IsDigit(s[0]) then [s[0]] else []) + Digits(s[1..])
  }

  /** `Digits` removes exactly the non-digits: every digit of `s` occurs in
      the result as often as in `s`, and nothing else does. Together with
      `DigitsAppend` this pins the result as the digits of `s` in order. */
  lemma {:induction false} DigitsIsFilter(s: string)
    ensures multiset(Digits(s)) <= multiset(s)
    ensures forall c :: IsDigit(c) ==> multiset(Digits(s))[c] == multiset(s)[c]
    decreases |s|
  {
    if s != [] {
      DigitsIsFilter(s[1..]);
      assert s == [s[0]] + s[1..];
    }
  }

  /** `Digits` is the filter that keeps exactly the digits: it distributes
      over concatenation, one character at a time. */
  lemma {:induction false} DigitsAppend(a: string, b: string)
    ensures Digits(a + b) == Digits(a) + Digits(b)
    decreases |a|
  {
    if a != [] {
      assert (a + b)[1..] == a[1..] + b;
      DigitsAppend(a[1..], b);
    } else {
      assert a + b == b;
    }
  }

  /** `replace(/(?!^\+)\D/g, '')`: a non-digit survives only when it is the
      `+` at position 0. */
  function StripNonDigits(s: string): (r: string)
    ensures Stripped(r)
    ensures Stripped(s) ==> r == s
    ensures r == (if s != [] && s[0] == '+' then "+" else "") + Digits(s)
  {
    if s != [] && s[0] == '+' then
      var r := "+" + Digits(s[1..]);
      assert Digits(s) == Digits(s[1..]);
      assert Stripped(r) by { PlusDigitsIsStripped(r); }
      assert Stripped(s) ==> r == s by {
        if Stripped(s) {
          assert forall i :: 0 <= i < |s| - 1 ==> s[1..][i] == s[i + 1];
          assert s == "+" + s[1..];
        }
      }
      r
    else
      var r := Digits(s);
      assert Stripped(s) ==> r == s by {
        if Stripped(s) { assert AllDigits(s); }
      }
      r
  }

  /** The greedy group of `^(\+\d{1,3})`, when the string starts with `+` and a digit. */
  function CountryCodePrefix(s: string): (r: Option<string>)
    ensures r.Some? <==> |s| >= 2 && s[0] == '+' && IsDigit(s[1])
    ensures r.Some? ==> 2 <= |r.value| <= 4 && |r.value| <= |s| && r.value == s[..|r.value|] && r.value[0] == '+'
    ensures r.Some? ==> AllDigits(r.value[1..])
    ensures r.Some? ==> |r.value| == 4 || |r.value| == |s| || !IsDigit(s[|r.value|])
  {
    if |s| >= 2 && s[0] == '+' && IsDigit(s[1]) then
      var n := if |s| >= 4 && IsDigit(s[2]) && IsDigit(s[3]) then 4
               else if |s| >= 3 && IsDigit(s[2]) then 3
               else 2;
      assert forall i :: 0 <= i < n - 1 ==> s[..n][1..][i] == s[i + 1];
      Some(s[..n])
    else None
  }

  /** `k` copies of `cc`, one after the other. */
  function Copies(cc: string, k: nat): (r: string)
    ensures |r| == k * |cc|
  {
    if k == 0 then [] else cc + Copies(cc, k - 1)
  }

  predicate StartsWith(t: string, cc: string) {
    |cc| <= |t| && t[..|cc|] == cc
  }

  /** How many copies of `cc` the greedy `^(cc)+` consumes: the string
      starts with that many copies, and no further copy follows them. */
  function Repeats(s: string, cc: string): (k: nat)
    requires cc != ""
    ensures k * |cc| <= |s|
    ensures s[..k * |cc|] == Copies(cc, k)
    ensures !StartsWith(s[k * |cc|..], cc)
    decreases |s|
  {
    if StartsWith(s, cc) then
      var t := s[|cc|..];
      var k := Repeats(t, cc);
      var n := k * |cc|;
      assert (1 + k) * |cc| == |cc| + n;
      assert s[..|cc| + n] == cc + t[..n];
      assert s[|cc| + n..] == t[n..];
      1 + k
    else
      assert s[..0] == [];
      0
  }

  /** Lines 8-14 as written: replace the run of copies of the country code
      at the front by a single copy. */
  function CollapseCountryCode(s: string): (r: string)
    ensures CountryCodePrefix(s).None? ==> r == s
    ensures CountryCodePrefix(s).Some? ==>
      var cc := CountryCodePrefix(s).value;
      && |cc| <= |r| <= |s| && r[..|cc|] == cc
      && (exists k: nat :: k >= 1 && s == Copies(cc, k) + r[|cc|..])
      && !StartsWith(r[|cc|..], cc)
  {
    match CountryCodePrefix(s)
    case None => s
    case Some(cc) =>
      var k := Repeats(s, cc);
      assert k >= 1 by { assert s[0..] == s; }
      var rest := s[k * |cc|..];
      var r := cc + rest;
      assert r[|cc|..] == rest;
      assert s == s[..k * |cc|] + rest;
      r
  }

  /** After stripping, a second copy of a `+`-code cannot follow the first,
      so the collapse never changes the string. */
  lemma CollapseIsIdentity(s: string)
    requires Stripped(s)
    ensures CollapseCountryCode(s) == s
  {
    var cc := CountryCodePrefix(s);
    if cc.Some? {
      var c := cc.value;
      var rest := s[|c|..];
      if |c| <= |rest| {
        assert rest[..|c|][0] == s[|c|] != '+';
      }
      assert Repeats(rest, c) == 0;
      assert Repeats(s, c) == 1;
    }
  }

  /** Lines 17-19. */
  function EnsurePlus(s: string): (r: string)
    ensures r != "" && r[0] == '+'
    ensures s != "" && s[0] == '+' ==> r == s
  {
    if s != "" && s[0] == '+' then s else "+" + s
  }

  /** The whole rewrite of lines 3-19 applied to a non-empty phone string:
      `+` followed by the digits of the trimmed input, in order. */
  function Normalize(s: string): (r: string)
    ensures PlusDigits(r)
    ensures r == "+" + Digits(Trim(s))
  {
    var t := Trim(s);
    var stripped := StripNonDigits(t);
    CollapseIsIdentity(stripped);
    var r := EnsurePlus(CollapseCountryCode(stripped));
    assert r == "+" + Digits(t) by {
      if !(t != [] && t[0] == '+') {
        if Digits(t) != [] { assert IsDigit(Digits(t)[0]); }
      }
    }
    assert AllDigits(r[1..]) by { assert r[1..] == Digits(t); }
    r
  }

  lemma PlusDigitsIsStripped(s: string)
    requires PlusDigits(s)
    ensures Stripped(s)
  {
    forall i | 0 <= i < |s| ensures IsDigit(s[i]) || (i == 0 && s[i] == '+') {
      if i > 0 { assert s[i] == s[1..][i - 1]; }
    }
  }

  /** Normalising an already normalised phone changes nothing. */
  lemma NormalizeIdempotent(s: string)
    ensures Normalize(Normalize(s)) == Normalize(s)
  {
    var t := Normalize(s);
    PlusDigitsUntrimmed(t);
    var d := Digits(t[1..]);
    assert d == t[1..];
    assert Digits(t) == d by { assert !IsDigit(t[0]); }
    assert Normalize(t) == "+" + d;
    assert t == "+" + t[1..];
  }

  /** A normalised phone has no whitespace at either end. */
  lemma PlusDigitsUntrimmed(t: string)
    requires PlusDigits(t)
    ensures Trim(t) == t
  {
    assert t[0] == '+';
    var last := t[|t| - 1];
    assert last == '+' || IsDigit(last) by {
      if |t| > 1 { assert last == t[1..][|t| - 2]; }
    }
    assert !IsSpace(last);
    assert TrimStart(t) == t;
  }

  /** A duplicated `+91` prefix is not collapsed: the second `+` is stripped first. */
  lemma DuplicateCodeNotCollapsed()
    ensures Normalize("+91+91") == "+9191"
  {
    var s := "+91+91";
    TrimKeepsUnpadded(s);
    DigitsOfDoubleCode();
  }

  /** A string that neither starts nor ends with whitespace is its own trim. */
  lemma TrimKeepsUnpadded(s: string)
    requires s != "" && !IsSpace(s[0]) && !IsSpace(s[|s| - 1])
    ensures Trim(s) == s
  {
    assert TrimStart(s) == s;
  }

  lemma DigitsOfDoubleCode()
    ensures Digits("+91+91") == "9191"
  {
    DigitsAppend("+91", "+91");
    assert "+91" + "+91" == "+91+91";
    assert Digits("1") == "1";
    assert Digits("91") == "91";
    assert Digits("+91") == "91";
  }

  /** `req.body` as far as the middleware touches it: the parsed `phone` field. */
  class Request {
    var phone: Value

    constructor (phone: Value)
      ensures this.phone == phone
    {
      this.phone := phone;
    }
  }

  /** `normalizePhone(req, res, next)`. A falsy phone is left as it is and a
      string one is rewritten; either way `next` is called once. A truthy
      phone that is not a string has no `trim` method, so line 3 throws a
      TypeError before `next` is reached. */
  method NormalizeRequest(req: Request) returns (nextCalls: nat, threw: bool)
    modifies req
    ensures !Truthy(old(req.phone)) ==> req.phone == old(req.phone) && nextCalls == 1 && !threw
    ensures Truthy(old(req.phone)) && old(req.phone).Str? ==>
      req.phone == Str(Normalize(old(req.phone).s)) && nextCalls == 1 && !threw
    ensures Truthy(old(req.phone)) && !old(req.phone).Str? ==>
      req.phone == old(req.phone) && nextCalls == 0 && threw
  {
    var phone := req.phone;
    if !Truthy(phone) {
      return 1, false;
    }
    if !phone.Str? {
      return 0, true;
    }
    var normalized := Normalize(phone.s);
    req.phone := Str(normalized);
    return 1, false;
  }
}
