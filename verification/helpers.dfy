/** `utils/helpers.py`: the email and password validators, the timestamp
    formatter and the two response envelopes. */
module Helpers {

  import opened Results
  import opened Json
  import opened Digits
  import opened Timestamps

  // ---------------------------------------------------------------------
  // Character classes of the two regular expressions (ASCII ranges: no
  // IGNORECASE flag is given, so `[A-Z]` and `[a-z]` match ASCII only)
  // ---------------------------------------------------------------------

  predicate IsAsciiUpper(c: char) {
    'A' <= c <= 'Z'
  }

  predicate IsAsciiLower(c: char) {
    'a' <= c <= 'z'
  }

  predicate IsAsciiLetter(c: char) {
    IsAsciiUpper(c) || IsAsciiLower(c)
  }

  /** `[a-zA-Z0-9._%+-]`, the class of the part before the `@`. */
  predicate IsLocalChar(c: char) {
    IsAsciiLetter(c) || IsAsciiDigit(c) || c == '.' || c == '_' || c == '%' || c == '+' || c == '-'
  }

  /** `[a-zA-Z0-9.-]`, the class of the part after the `@`. */
  predicate IsDomainChar(c: char) {
    IsAsciiLetter(c) || IsAsciiDigit(c) || c == '.' || c == '-'
  }

  predicate AllLocal(s: string) {
    forall i | 0 <= i < |s| :: IsLocalChar(s[i])
  }

  predicate AllDomain(s: string) {
    forall i | 0 <= i < |s| :: IsDomainChar(s[i])
  }

  predicate AllLetters(s: string) {
    forall i | 0 <= i < |s| :: IsAsciiLetter(s[i])
  }

  /** The positions of `s` that hold `c`. */
  function Occurrences(s: string, c: char): set<nat> {
    set i: nat | i < |s| && s[i] == c
  }

  // ---------------------------------------------------------------------
  // Scanning
  // ---------------------------------------------------------------------

  /** The leftmost position whose character is in `cls`, as `re.search` with a
      one-character pattern finds it. */
  function FindFirst(s: string, cls: char -> bool): (r: Option<nat>)
    ensures r.Some? ==> r.value < |s| && cls(s[r.value])
    ensures r.Some? ==> forall j | 0 <= j < r.value :: !cls(s[j])
    ensures r.None? ==> forall j | 0 <= j < |s| :: !cls(s[j])
  {
    if |s| == 0 then None
    else if cls(s[0]) then Some(0)
    else match FindFirst(s[1..], cls)
      case None => None
      case Some(k) => Some(k + 1)
  }

  /** The rightmost position of `c` in `s`. */
  function FindLast(s: string, c: char): (r: Option<nat>)
    ensures r.Some? ==> r.value < |s| && s[r.value] == c
    ensures r.Some? ==> forall j | r.value < j < |s| :: s[j] != c
    ensures r.None? ==> forall j | 0 <= j < |s| :: s[j] != c
  {
    if |s| == 0 then None
    else if s[|s| - 1] == c then Some(|s| - 1)
    else FindLast(s[..|s| - 1], c)
  }

  function IndexOf(s: string, c: char): Option<nat> {
    FindFirst(s, x => x == c)
  }

  // ---------------------------------------------------------------------
  // validate_email: r'^[a-zA-Z0-9._%+-]+@[a-zA-Z0-9.-]+\.[a-zA-Z]{2,}$'
  // ---------------------------------------------------------------------

  /** The regular expression as a language: `s` is `local @ domain . tld` with
      the `@` at `at` and the final dot at `dot`, a non-empty local part, a
      non-empty domain and a top-level part of at least two letters. */
  ghost predicate PatternSplit(s: string, at: int, dot: int) {
    && 0 < at && at + 1 < dot && dot + 2 < |s|
    && s[at] == '@' && s[dot] == '.'
    && (forall i | 0 <= i < at :: IsLocalChar(s[i]))
    && (forall i | at < i < dot :: IsDomainChar(s[i]))
    && (forall i | dot < i < |s| :: IsAsciiLetter(s[i]))
  }

  ghost predicate PatternMatches(s: string) {
    exists at, dot :: PatternSplit(s, at, dot)
  }

  /** What `re.match` accepts: Python's `$` matches at the very end of the
      string and also just before one final newline. */
  ghost predicate RegexAccepts(s: string) {
    PatternMatches(s) || (|s| > 0 && s[|s| - 1] == '\n' && PatternMatches(s[..|s| - 1]))
  }

  /** The string without the one final newline `$` lets through. */
  function StripFinalNewline(s: string): string {
    if |s| > 0 && s[|s| - 1] == '\n' then s[..|s| - 1] else s
  }

  /** The hand-written recogniser: split at the first `@`, then at the last
      dot of what follows it. */
  function MatchesBody(s: string): bool {
    match IndexOf(s, '@')
    case None => false
    case Some(at) =>
      var domain := s[at + 1..];
      && 0 < at && AllLocal(s[..at]) && AllDomain(domain)
      && match FindLast(domain, '.')
         case None => false
         case Some(dot) => 0 < dot && dot + 2 < |domain| && AllLetters(domain[dot + 1..])
  }

  function ValidateEmail(email: string): bool {
    MatchesBody(StripFinalNewline(email))
  }

  lemma MatchesBodySound(s: string)
    requires MatchesBody(s)
    ensures PatternMatches(s)
  {
    var at := IndexOf(s, '@').value;
    var local, domain := s[..at], s[at + 1..];
    var dot := FindLast(domain, '.').value;
    var tld := domain[dot + 1..];
    var d := at + 1 + dot;
    assert AllLocal(local) && AllDomain(domain) && AllLetters(tld);
    forall i | 0 <= i < at ensures IsLocalChar(s[i]) {
      assert s[i] == local[i];
    }
    forall i | at < i < d ensures IsDomainChar(s[i]) {
      assert s[i] == domain[i - at - 1];
    }
    forall i | d < i < |s| ensures IsAsciiLetter(s[i]) {
      assert s[i] == tld[i - d - 1];
    }
    assert s[d] == domain[dot] == '.';
    assert PatternSplit(s, at, d);
  }

  lemma MatchesBodyComplete(s: string, at: int, dot: int)
    requires PatternSplit(s, at, dot)
    ensures MatchesBody(s)
  {
    var first := IndexOf(s, '@');
    assert first == Some(at) by {
      assert forall j | 0 <= j < at :: s[j] != '@' by {
        forall j | 0 <= j < at ensures s[j] != '@' {
          assert IsLocalChar(s[j]);
        }
      }
    }
    var domain := s[at + 1..];
    assert AllDomain(domain) by {
      forall i | 0 <= i < |domain| ensures IsDomainChar(domain[i]) {
        assert domain[i] == s[at + 1 + i];
      }
    }
    var k := dot - at - 1;
    assert domain[k] == '.';
    assert FindLast(domain, '.') == Some(k) by {
      forall j | k < j < |domain| ensures domain[j] != '.' {
        assert IsAsciiLetter(s[at + 1 + j]);
      }
    }
    var tld := domain[k + 1..];
    assert AllLetters(tld) by {
      forall i | 0 <= i < |tld| ensures IsAsciiLetter(tld[i]) {
        assert tld[i] == s[dot + 1 + i];
      }
    }
  }

  /** The recogniser accepts exactly the strings the regular expression does. */
  lemma ValidateEmailMatchesRegex(email: string)
    ensures ValidateEmail(email) <==> RegexAccepts(email)
  {
    var b := StripFinalNewline(email);
    if ValidateEmail(email) {
      MatchesBodySound(b);
    }
    if RegexAccepts(email) {
      if PatternMatches(email) {
        var at, dot :| PatternSplit(email, at, dot);
        assert IsAsciiLetter(email[|email| - 1]);
        MatchesBodyComplete(email, at, dot);
      } else {
        var at, dot :| PatternSplit(b, at, dot);
        MatchesBodyComplete(b, at, dot);
      }
    }
  }

  /** An accepted address (less the one final newline `$` allows) holds
      exactly one `@`, preceded by a non-empty run of local characters; the
      text after its last dot is at least two ASCII letters, and at least one
      domain character sits between the `@` and that dot. */
  lemma AcceptedEmailShape(email: string)
    requires ValidateEmail(email)
    ensures var b := StripFinalNewline(email);
      && IndexOf(b, '@').Some? && FindLast(b, '.').Some?
      && var at, dot := IndexOf(b, '@').value, FindLast(b, '.').value;
      && Occurrences(b, '@') == {at}
      && 0 < at && AllLocal(b[..at])
      && at + 1 < dot && AllDomain(b[at + 1..dot])
      && |b| - dot - 1 >= 2 && AllLetters(b[dot + 1..])
  {
    var b := StripFinalNewline(email);
    MatchesBodySound(b);
    var at, dot :| PatternSplit(b, at, dot);
    assert IndexOf(b, '@') == Some(at) by {
      assert forall j | 0 <= j < at :: b[j] != '@' by {
        forall j | 0 <= j < at ensures b[j] != '@' {
          assert IsLocalChar(b[j]);
        }
      }
    }
    assert FindLast(b, '.') == Some(dot) by {
      forall j | dot < j < |b| ensures b[j] != '.' {
        assert IsAsciiLetter(b[j]);
      }
    }
    assert Occurrences(b, '@') == {at} by {
      forall i: nat | i < |b| && i != at ensures b[i] != '@' {
        if i < at {
          assert IsLocalChar(b[i]);
        } else if i < dot {
          assert IsDomainChar(b[i]);
        } else if dot < i {
          assert IsAsciiLetter(b[i]);
        }
      }
    }
    assert AllLocal(b[..at]) by {
      forall i | 0 <= i < at ensures IsLocalChar(b[..at][i]) {
        assert b[..at][i] == b[i];
      }
    }
    var domain, tld := b[at + 1..dot], b[dot + 1..];
    assert AllDomain(domain) by {
      forall i | 0 <= i < |domain| ensures IsDomainChar(domain[i]) {
        assert domain[i] == b[at + 1 + i];
      }
    }
    assert AllLetters(tld) by {
      forall i | 0 <= i < |tld| ensures IsAsciiLetter(tld[i]) {
        assert tld[i] == b[dot + 1 + i];
      }
    }
  }

  // ---------------------------------------------------------------------
  // validate_password
  // ---------------------------------------------------------------------

  const MinPasswordLength: nat := 8
  const PasswordTooShort := "Password must be at least 8 characters long"
  const PasswordNoUpper := "Password must contain at least one uppercase letter"
  const PasswordNoLower := "Password must contain at least one lowercase letter"
  const PasswordNoDigit := "Password must contain at least one digit"

  /** The four strength rules' messages, in the order they are checked. */
  const PasswordMessages: seq<string> := [PasswordTooShort, PasswordNoUpper, PasswordNoLower, PasswordNoDigit]

  predicate HasUpper(password: string) {
    exists k | 0 <= k < |password| :: IsAsciiUpper(password[k])
  }

  predicate HasLower(password: string) {
    exists k | 0 <= k < |password| :: IsAsciiLower(password[k])
  }

  /** `isDecimal` is the class `\d` matches: on `str` patterns Python 3 takes
      it from the Unicode database, which this model does not enumerate. */
  predicate HasDecimal(password: string, isDecimal: char -> bool) {
    exists k | 0 <= k < |password| :: isDecimal(password[k])
  }

  /** Rule `i` of the strength check, in checking order. */
  predicate PasswordRule(i: nat, password: string, isDecimal: char -> bool) {
    if i == 0 then |password| >= MinPasswordLength
    else if i == 1 then HasUpper(password)
    else if i == 2 then HasLower(password)
    else HasDecimal(password, isDecimal)
  }

  predicate StrongPassword(password: string, isDecimal: char -> bool) {
    |password| >= MinPasswordLength && HasUpper(password) && HasLower(password) && HasDecimal(password, isDecimal)
  }

  /** `(is_valid, error_message)`: `(True, None)` for a strong password,
      otherwise `False` and the message of the first rule that fails. */
  function ValidatePassword(password: string, isDecimal: char -> bool): (r: (bool, Option<string>))
    ensures r.0 <==> StrongPassword(password, isDecimal)
    ensures r.0 ==> r.1 == None
    ensures |password| < MinPasswordLength ==> r == (false, Some(PasswordTooShort))
  {
    if |password| < MinPasswordLength then (false, Some(PasswordTooShort))
    else if FindFirst(password, IsAsciiUpper).None? then (false, Some(PasswordNoUpper))
    else if FindFirst(password, IsAsciiLower).None? then (false, Some(PasswordNoLower))
    else if FindFirst(password, isDecimal).None? then (false, Some(PasswordNoDigit))
    else (true, None)
  }

  /** A weak password is reported with the message of the first failing rule
      and of no other: the message is rule `i`'s exactly when rule `i` fails
      and every earlier rule holds. */
  lemma PasswordFirstFailure(password: string, isDecimal: char -> bool, i: nat)
    requires i < 4
    ensures ValidatePassword(password, isDecimal) == (false, Some(PasswordMessages[i]))
      <==> !PasswordRule(i, password, isDecimal) && forall j | 0 <= j < i :: PasswordRule(j, password, isDecimal)
  {
    var r := ValidatePassword(password, isDecimal);
    var u := FindFirst(password, IsAsciiUpper);
    var l := FindFirst(password, IsAsciiLower);
    var d := FindFirst(password, isDecimal);
    assert u.None? <==> !PasswordRule(1, password, isDecimal);
    assert l.None? <==> !PasswordRule(2, password, isDecimal);
    assert d.None? <==> !PasswordRule(3, password, isDecimal);
    var earlier := forall j | 0 <= j < i :: PasswordRule(j, password, isDecimal);
    if i >= 1 {
      assert earlier ==> PasswordRule(0, password, isDecimal);
    }
    if i >= 2 {
      assert earlier ==> PasswordRule(1, password, isDecimal);
    }
    if i >= 3 {
      assert earlier ==> PasswordRule(2, password, isDecimal);
    }
  }

  // ---------------------------------------------------------------------
  // format_datetime
  // ---------------------------------------------------------------------

  /** `None` stays `None`; a datetime becomes its ISO text with a `Z` suffix,
      from which the datetime can be read back. */
  function FormatDatetime(dt: Option<DateTime>): (r: Option<string>)
    ensures dt.None? <==> r.None?
    ensures dt.Some? ==> |r.value| > 0 && r.value[|r.value| - 1] == 'Z'
    ensures dt.Some? ==> ParseIso(r.value[..|r.value| - 1]) == Some(dt.value)
  {
    match dt
    case None => None
    case Some(t) =>
      IsoRoundTrip(t);
      var s := IsoFormat(t) + "Z";
      assert s[..|s| - 1] == IsoFormat(t);
      Some(s)
  }

  // ---------------------------------------------------------------------
  // success_response / error_response
  // ---------------------------------------------------------------------

  /** `({'success': True, 'data': data[, 'meta': meta]}, status_code)`; the
      `meta` key is present only for a truthy `meta`. */
  function SuccessResponse(data: Value := Null, meta: Value := Null, statusCode: int := 200): (r: (Value, int))
  {
    var base := map["success" := Bool(true), "data" := data];
    (Object(if Truthy(meta) then base["meta" := meta] else base), statusCode)
  }

  /** `({'success': False, 'error': {'code': code, 'message': message[,
      'details': details]}}, status_code)`; `details` only when truthy. */
  function ErrorResponse(code: Value, message: Value, details: Value := Null, statusCode: int := 400): (r: (Value, int))
  {
    var error := map["code" := code, "message" := message];
    (Object(map["success" := Bool(false),
                "error" := Object(if Truthy(details) then error["details" := details] else error)]),
     statusCode)
  }

  /** Reads a success envelope: its data and its meta, if any. None for any
      value that is not exactly such an envelope. */
  function ReadSuccess(v: Value): Option<(Value, Option<Value>)> {
    if v.Object? && "success" in v.fields && v.fields["success"] == Bool(true) && "data" in v.fields
       && (v.fields.Keys == {"success", "data"} || (v.fields.Keys == {"success", "data", "meta"} && Truthy(v.fields["meta"])))
    then Some((v.fields["data"], if "meta" in v.fields then Some(v.fields["meta"]) else None))
    else None
  }

  /** Reads an error envelope: code, message and details, if any. None for
      any value that is not exactly such an envelope. */
  function ReadError(v: Value): Option<(Value, Value, Option<Value>)> {
    if v.Object? && v.fields.Keys == {"success", "error"} && v.fields["success"] == Bool(false)
       && v.fields["error"].Object?
    then
      var e := v.fields["error"].fields;
      if "code" in e && "message" in e
         && (e.Keys == {"code", "message"} || (e.Keys == {"code", "message", "details"} && Truthy(e["details"])))
      then Some((e["code"], e["message"], if "details" in e then Some(e["details"]) else None))
      else None
    else None
  }

  /** A success envelope carries `success = true`, the data unchanged, the
      meta exactly when it is truthy, and the status (200 unless given). */
  lemma SuccessResponseReads(data: Value, meta: Value, statusCode: int)
    ensures SuccessResponse(data, meta, statusCode).1 == statusCode
    ensures SuccessResponse(data).1 == 200
    ensures ReadSuccess(SuccessResponse(data, meta, statusCode).0)
      == Some((data, if Truthy(meta) then Some(meta) else None))
  {
    var v := SuccessResponse(data, meta, statusCode).0;
    if Truthy(meta) {
      assert v.fields.Keys == {"success", "data", "meta"};
    } else {
      assert v.fields.Keys == {"success", "data"};
    }
  }

  /** An error envelope carries `success = false`, the code and message
      unchanged, the details exactly when truthy, and the status (400 unless
      given). */
  lemma ErrorResponseReads(code: Value, message: Value, details: Value, statusCode: int)
    ensures ErrorResponse(code, message, details, statusCode).1 == statusCode
    ensures ErrorResponse(code, message).1 == 400
    ensures ReadError(ErrorResponse(code, message, details, statusCode).0)
      == Some((code, message, if Truthy(details) then Some(details) else None))
  {
    var v := ErrorResponse(code, message, details, statusCode).0;
    assert v.fields.Keys == {"success", "error"};
    var e := v.fields["error"].fields;
    if Truthy(details) {
      assert e.Keys == {"code", "message", "details"};
    } else {
      assert e.Keys == {"code", "message"};
    }
  }
}
