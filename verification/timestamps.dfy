/** Naive UTC datetimes as `datetime.utcnow()` produces them, and the text
    `datetime.isoformat()` writes for them. */
module Timestamps {

  import opened Results
  import opened Digits

  datatype Moment = Moment(year: nat, month: nat, day: nat, hour: nat, minute: nat, second: nat, microsecond: nat)

  predicate IsLeapYear(y: nat) {
    y % 4 == 0 && (y % 100 != 0 || y % 400 == 0)
  }

  function DaysInMonth(y: nat, m: nat): nat
    requires 1 <= m <= 12
  {
    if m == 2 then (if IsLeapYear(y) then 29 else 28)
    else if m == 4 || m == 6 || m == 9 || m == 11 then 30
    else 31
  }

  /** The ranges Python's `datetime` constructor enforces. */
  predicate ValidMoment(t: Moment) {
    && 1 <= t.year <= 9999
    && 1 <= t.month <= 12
    && 1 <= t.day <= DaysInMonth(t.year, t.month)
    && t.hour < 24 && t.minute < 60 && t.second < 60
    && t.microsecond < 1000000
  }

  /** A `datetime` object: no other moment can be constructed. */
  type DateTime = t: Moment | ValidMoment(t) witness Moment(1, 1, 1, 0, 0, 0, 0)

  /** Three zero-padded numbers joined by `sep`, the first `width` digits
      wide and the other two 2 digits wide: `YYYY-MM-DD` or `HH:MM:SS`. */
  function TripleText(a: nat, b: nat, c: nat, width: nat, sep: char): string {
    PadDecimal(a, width) + [sep] + PadDecimal(b, 2) + [sep] + PadDecimal(c, 2)
  }

  /** Reads the layout `TripleText` writes; None for any other text. */
  function ParseTriple(s: string, width: nat, sep: char): Option<(nat, nat, nat)> {
    if |s| == width + 6 && s[width] == sep && s[width + 3] == sep
       && AllDigits(s[..width]) && AllDigits(s[width + 1..width + 3]) && AllDigits(s[width + 4..])
    then Some((ParseDigits(s[..width]), ParseDigits(s[width + 1..width + 3]), ParseDigits(s[width + 4..])))
    else None
  }

  lemma TripleRoundTrip(a: nat, b: nat, c: nat, width: nat, sep: char)
    requires a < Pow10(width) && b < 100 && c < 100
    ensures ParseTriple(TripleText(a, b, c, width, sep), width, sep) == Some((a, b, c))
  {
    var pa, pb, pc := PadDecimal(a, width), PadDecimal(b, 2), PadDecimal(c, 2);
    var s := TripleText(a, b, c, width, sep);
    assert s == pa + [sep] + pb + [sep] + pc;
    assert |s| == width + 6 && s[width] == sep && s[width + 3] == sep;
    assert s[..width] == pa;
    assert s[width + 1..width + 3] == pb;
    assert s[width + 4..] == pc;
    PadDecimalRoundTrip(a, width);
    PadDecimalRoundTrip(b, 2);
    PadDecimalRoundTrip(c, 2);
  }

  lemma TripleExact(s: string, width: nat, sep: char)
    requires ParseTriple(s, width, sep).Some?
    ensures var (a, b, c) := ParseTriple(s, width, sep).value; TripleText(a, b, c, width, sep) == s
  {
    PadOfParse(s[..width]);
    PadOfParse(s[width + 1..width + 3]);
    PadOfParse(s[width + 4..]);
    assert s == s[..width] + [s[width]] + s[width + 1..width + 3] + [s[width + 3]] + s[width + 4..];
  }

  /** The `.ffffff` suffix, printed only for a non-zero microsecond. */
  function FractionText(micro: nat): string {
    if micro == 0 then "" else "." + PadDecimal(micro, 6)
  }

  /** Reads a suffix `FractionText` writes; None for any other text. */
  function ParseFraction(s: string): Option<nat> {
    if |s| == 0 then Some(0)
    else if |s| == 7 && s[0] == '.' && AllDigits(s[1..]) && ParseDigits(s[1..]) != 0 then Some(ParseDigits(s[1..]))
    else None
  }

  lemma FractionRoundTrip(micro: nat)
    requires micro < 1000000
    ensures ParseFraction(FractionText(micro)) == Some(micro)
  {
    if micro != 0 {
      var s := FractionText(micro);
      assert s[1..] == PadDecimal(micro, 6);
      PadDecimalRoundTrip(micro, 6);
    }
  }

  lemma FractionExact(s: string)
    requires ParseFraction(s).Some?
    ensures FractionText(ParseFraction(s).value) == s
  {
    if |s| != 0 {
      PadOfParse(s[1..]);
      assert s == "." + s[1..];
    }
  }

  /** `dt.isoformat()` for a naive datetime: `YYYY-MM-DDTHH:MM:SS`, followed by
      `.ffffff` only when the microsecond is not zero. */
  function IsoFormat(dt: DateTime): string {
    TripleText(dt.year, dt.month, dt.day, 4, '-') + "T"
    + TripleText(dt.hour, dt.minute, dt.second, 2, ':')
    + FractionText(dt.microsecond)
  }

  /** Reads the text `IsoFormat` writes back into a datetime; any other text,
      an impossible date or an all-zero fraction included, is None. */
  function ParseIso(s: string): Option<DateTime> {
    if |s| < 19 || s[10] != 'T' then None
    else
      match (ParseTriple(s[..10], 4, '-'), ParseTriple(s[11..19], 2, ':'), ParseFraction(s[19..]))
      case (Some((y, mo, d)), Some((h, mi, sec)), Some(micro)) =>
        var t := Moment(y, mo, d, h, mi, sec, micro);
        if ValidMoment(t) then
          var dt: DateTime := t;
          Some(dt)
        else None
      case _ => None
  }

  /** Parsing what `isoformat` wrote gives back the same datetime. */
  lemma IsoRoundTrip(dt: DateTime)
    ensures ParseIso(IsoFormat(dt)) == Some(dt)
  {
    var date := TripleText(dt.year, dt.month, dt.day, 4, '-');
    var time := TripleText(dt.hour, dt.minute, dt.second, 2, ':');
    var s := IsoFormat(dt);
    assert s[..10] == date && s[10] == 'T' && s[11..19] == time && s[19..] == FractionText(dt.microsecond);
    TripleRoundTrip(dt.year, dt.month, dt.day, 4, '-');
    TripleRoundTrip(dt.hour, dt.minute, dt.second, 2, ':');
    FractionRoundTrip(dt.microsecond);
  }

  /** The parser accepts nothing but what `isoformat` writes, so distinct
      texts never denote the same datetime. */
  lemma IsoParseExact(s: string)
    requires ParseIso(s).Some?
    ensures IsoFormat(ParseIso(s).value) == s
  {
    TripleExact(s[..10], 4, '-');
    TripleExact(s[11..19], 2, ':');
    FractionExact(s[19..]);
    assert s == s[..10] + [s[10]] + s[11..19] + s[19..];
  }
}
