/**
 * The two fixed timestamp layouts of the SolarmanPV API, as read by
 * `datetime.strptime` and written back by `strftime`:
 *   plant power records   `%Y-%m-%dT%H:%M:%SZ`
 *   inverter records      `%Y-%m-%dT%H:%M:%S+10:00`
 * together with the integer sort key the API client derives from a parsed
 * timestamp, and the `%Y%m%d` / `%H:%M` strings sent to PVOutput.
 */
module Timestamp {
  import opened Wrappers

  /** The calendar and wall-clock fields `strptime` reads. */
  datatype Fields = Fields(year: int, month: int, day: int, hour: int, minute: int, second: int)

  predicate IsLeapYear(y: int) {
    y % 4 == 0 && (y % 100 != 0 || y % 400 == 0)
  }

  function DaysInMonth(y: int, m: int): int
    requires 1 <= m <= 12
  {
    if m == 2 then (if IsLeapYear(y) then 29 else 28)
    else if m == 4 || m == 6 || m == 9 || m == 11 then 30
    else 31
  }

  /** The range checks `datetime` applies when it builds the parsed value. */
  predicate ValidFields(f: Fields) {
    && 1 <= f.year <= 9999
    && 1 <= f.month <= 12
    && 1 <= f.day <= DaysInMonth(f.year, f.month)
    && 0 <= f.hour < 24
    && 0 <= f.minute < 60
    && 0 <= f.second < 60
  }

  /** A naive `datetime` value: fields that passed the range checks. */
  type DateTime = f: Fields | ValidFields(f) witness Fields(1970, 1, 1, 0, 0, 0)

  /** Which of the two record formats a timestamp is read with. */
  datatype Layout = PlantPower | Inverter

  /** The literal text after the seconds field. */
  function Suffix(layout: Layout): string {
    match layout
    case PlantPower => "Z"
    case Inverter => "+10:00"
  }

  // ---------------------------------------------------------------------
  // Decimal digit strings
  // ---------------------------------------------------------------------

  predicate IsDigit(c: char) {
    '0' <= c <= '9'
  }

  predicate AllDigits(s: string) {
    forall i :: 0 <= i < |s| ==> IsDigit(s[i])
  }

  function DigitValue(c: char): nat
    requires IsDigit(c)
  {
    c as int - '0' as int
  }

  function DigitChar(d: nat): char
    requires d < 10
  {
    ('0' as int + d) as char
  }

  function Pow10(n: nat): nat {
    if n == 0 then 1 else 10 * Pow10(n - 1)
  }

  /** The number a string of decimal digits denotes. */
  function DecimalValue(s: string): nat
    requires AllDigits(s)
  {
    if |s| == 0 then 0 else DecimalValue(s[..|s| - 1]) * 10 + DigitValue(s[|s| - 1])
  }

  /** `n` written with exactly `width` digits, zero-padded on the left. */
  function PadDecimal(n: nat, width: nat): (r: string)
    ensures |r| == width
    ensures AllDigits(r)
  {
    if width == 0 then [] else PadDecimal(n / 10, width - 1) + [DigitChar(n % 10)]
  }

  /** Reading back a padded number gives the number, when it fits the width. */
  lemma {:induction false} DecimalOfPad(n: nat, width: nat)
    requires n < Pow10(width)
    ensures DecimalValue(PadDecimal(n, width)) == n
  {
    if width > 0 {
      var p := PadDecimal(n / 10, width - 1);
      DecimalOfPad(n / 10, width - 1);
      assert (p + [DigitChar(n % 10)])[..width - 1] == p;
    }
  }

  /** Padding the value of a digit string to its own width gives the string back. */
  lemma {:induction false} PadOfDecimal(s: string)
    requires AllDigits(s)
    ensures PadDecimal(DecimalValue(s), |s|) == s
  {
    if |s| > 0 {
      var init := s[..|s| - 1];
      PadOfDecimal(init);
      var n := DecimalValue(s);
      assert n / 10 == DecimalValue(init);
      assert n % 10 == DigitValue(s[|s| - 1]);
      assert s == init + [s[|s| - 1]];
    }
  }

  // ---------------------------------------------------------------------
  // Parsing and rendering the API's timestamps
  // ---------------------------------------------------------------------

  /** The fixed-width shape `YYYY-MM-DDTHH:MM:SS` followed by the layout's suffix. */
  predicate Shaped(s: string, layout: Layout) {
    && |s| == 19 + |Suffix(layout)|
    && AllDigits(s[0..4]) && s[4] == '-'
    && AllDigits(s[5..7]) && s[7] == '-'
    && AllDigits(s[8..10]) && s[10] == 'T'
    && AllDigits(s[11..13]) && s[13] == ':'
    && AllDigits(s[14..16]) && s[16] == ':'
    && AllDigits(s[17..19])
    && s[19..] == Suffix(layout)
  }

  function FieldsOf(s: string, layout: Layout): Fields
    requires Shaped(s, layout)
  {
    Fields(DecimalValue(s[0..4]), DecimalValue(s[5..7]), DecimalValue(s[8..10]),
           DecimalValue(s[11..13]), DecimalValue(s[14..16]), DecimalValue(s[17..19]))
  }

  /**
   * `datetime.strptime(s, format)` for the layout's format: `None` stands
   * for the `ValueError` raised on a shape mismatch or an out-of-range field.
   */
  function Parse(s: string, layout: Layout): (r: Option<DateTime>)
    ensures r.Some? ==> |s| == 19 + |Suffix(layout)| && s[19..] == Suffix(layout)
  {
    if Shaped(s, layout) && ValidFields(FieldsOf(s, layout)) then Some(FieldsOf(s, layout)) else None
  }

  /** `YYYY-MM-DD`. */
  function DateText(t: DateTime): string {
    PadDecimal(t.year, 4) + "-" + PadDecimal(t.month, 2) + "-" + PadDecimal(t.day, 2)
  }

  /** `HH:MM:SS`. */
  function ClockText(t: DateTime): string {
    PadDecimal(t.hour, 2) + ":" + PadDecimal(t.minute, 2) + ":" + PadDecimal(t.second, 2)
  }

  /** The canonical text of `t` in the layout: the strings `Parse` accepts. */
  function Render(t: DateTime, layout: Layout): (r: string)
    ensures |r| == 19 + |Suffix(layout)|
  {
    DateText(t) + "T" + ClockText(t) + Suffix(layout)
  }

  lemma DatePieces(t: DateTime)
    ensures var d := DateText(t);
      && d[0..4] == PadDecimal(t.year, 4) && d[4] == '-'
      && d[5..7] == PadDecimal(t.month, 2) && d[7] == '-'
      && d[8..10] == PadDecimal(t.day, 2)
  {
  }

  lemma ClockPieces(t: DateTime)
    ensures var c := ClockText(t);
      && c[0..2] == PadDecimal(t.hour, 2) && c[2] == ':'
      && c[3..5] == PadDecimal(t.minute, 2) && c[5] == ':'
      && c[6..8] == PadDecimal(t.second, 2)
  {
  }

  lemma RenderPieces(t: DateTime, layout: Layout)
    ensures var r := Render(t, layout);
      && r[0..4] == PadDecimal(t.year, 4) && r[4] == '-'
      && r[5..7] == PadDecimal(t.month, 2) && r[7] == '-'
      && r[8..10] == PadDecimal(t.day, 2) && r[10] == 'T'
      && r[11..13] == PadDecimal(t.hour, 2) && r[13] == ':'
      && r[14..16] == PadDecimal(t.minute, 2) && r[16] == ':'
      && r[17..19] == PadDecimal(t.second, 2)
      && r[19..] == Suffix(layout)
  {
    var r := Render(t, layout);
    var d, c := DateText(t), ClockText(t);
    DatePieces(t);
    ClockPieces(t);
    assert r[..10] == d;
    assert r[11..19] == c;
    assert r[0..4] == d[0..4] && r[5..7] == d[5..7] && r[8..10] == d[8..10];
    assert r[11..13] == c[0..2] && r[14..16] == c[3..5] && r[17..19] == c[6..8];
  }

  /** Every timestamp parses back from its rendering. */
  lemma ParseRender(t: DateTime, layout: Layout)
    ensures Parse(Render(t, layout), layout) == Some(t)
  {
    var r := Render(t, layout);
    RenderPieces(t, layout);
    DecimalOfPad(t.year, 4);
    DecimalOfPad(t.month, 2);
    DecimalOfPad(t.day, 2);
    DecimalOfPad(t.hour, 2);
    DecimalOfPad(t.minute, 2);
    DecimalOfPad(t.second, 2);
    assert FieldsOf(r, layout) == t;
  }

  /** Every string the parser accepts is the rendering of what it parsed. */
  lemma RenderParse(s: string, layout: Layout)
    requires Parse(s, layout).Some?
    ensures Render(Parse(s, layout).value, layout) == s
  {
    var t := Parse(s, layout).value;
    RenderPieces(t, layout);
    PadOfDecimal(s[0..4]);
    PadOfDecimal(s[5..7]);
    PadOfDecimal(s[8..10]);
    PadOfDecimal(s[11..13]);
    PadOfDecimal(s[14..16]);
    PadOfDecimal(s[17..19]);
    SameByPieces(Render(t, layout), s);
  }

  /** Two timestamp-shaped strings that agree piece by piece are equal. */
  lemma SameByPieces(r: string, s: string)
    requires |r| == |s| >= 19
    requires && r[0..4] == s[0..4] && r[4] == s[4] && r[5..7] == s[5..7] && r[7] == s[7]
             && r[8..10] == s[8..10] && r[10] == s[10] && r[11..13] == s[11..13] && r[13] == s[13]
             && r[14..16] == s[14..16] && r[16] == s[16] && r[17..19] == s[17..19] && r[19..] == s[19..]
    ensures r == s
  {
    forall i | 0 <= i < |s|
      ensures r[i] == s[i]
    {
      if i < 4 { assert r[0..4][i] == s[0..4][i]; }
      else if 5 <= i < 7 { assert r[5..7][i - 5] == s[5..7][i - 5]; }
      else if 8 <= i < 10 { assert r[8..10][i - 8] == s[8..10][i - 8]; }
      else if 11 <= i < 13 { assert r[11..13][i - 11] == s[11..13][i - 11]; }
      else if 14 <= i < 16 { assert r[14..16][i - 14] == s[14..16][i - 14]; }
      else if 17 <= i < 19 { assert r[17..19][i - 17] == s[17..19][i - 17]; }
      else if i >= 19 { assert r[19..][i - 19] == s[19..][i - 19]; }
    }
  }

  /** The parser accepts exactly the fixed-width renderings of valid timestamps. */
  lemma ParseAcceptsExactlyRenderings(s: string, layout: Layout)
    ensures Parse(s, layout).Some? <==> exists t: DateTime :: Render(t, layout) == s
  {
    if Parse(s, layout).Some? {
      RenderParse(s, layout);
    }
    if t: DateTime :| Render(t, layout) == s {
      ParseRender(t, layout);
    }
  }

  // ---------------------------------------------------------------------
  // The sort key
  // ---------------------------------------------------------------------

  /** Chronological order of wall-clock fields: lexicographic, most significant first. */
  predicate Before(a: Fields, b: Fields) {
    if a.year != b.year then a.year < b.year
    else if a.month != b.month then a.month < b.month
    else if a.day != b.day then a.day < b.day
    else if a.hour != b.hour then a.hour < b.hour
    else if a.minute != b.minute then a.minute < b.minute
    else a.second < b.second
  }

  /**
   * The integer the API client sorts records by. The source converts the
   * naive value to a local-time epoch with `strftime("%s")` and only ever
   * compares the results, so the model counts seconds in a calendar of
   * 12 months of 31 days, which orders timestamps the same way.
   */
  function Ordinal(t: DateTime): int {
    t.year * 32140800 + (t.month - 1) * 2678400 + (t.day - 1) * 86400 + t.hour * 3600 + t.minute * 60 + t.second
  }

  /** The sort key orders timestamps chronologically and tells them apart. */
  lemma OrdinalOrder(a: DateTime, b: DateTime)
    ensures Ordinal(a) < Ordinal(b) <==> Before(a, b)
    ensures Ordinal(a) == Ordinal(b) <==> a == b
  {
  }

  // ---------------------------------------------------------------------
  // The strings uploaded to PVOutput
  // ---------------------------------------------------------------------

  /** `strftime("%Y%m%d")`. */
  function FormatDate(t: DateTime): string {
    PadDecimal(t.year, 4) + PadDecimal(t.month, 2) + PadDecimal(t.day, 2)
  }

  /** `strftime("%H:%M")`. */
  function FormatTime(t: DateTime): string {
    PadDecimal(t.hour, 2) + ":" + PadDecimal(t.minute, 2)
  }

  /** The date is eight digits that read back as the year, month and day. */
  lemma FormatDateReadsBack(t: DateTime)
    ensures var r := FormatDate(t);
      && |r| == 8 && AllDigits(r)
      && DecimalValue(r[..4]) == t.year
      && DecimalValue(r[4..6]) == t.month
      && DecimalValue(r[6..]) == t.day
  {
    DecimalOfPad(t.year, 4);
    DecimalOfPad(t.month, 2);
    DecimalOfPad(t.day, 2);
    var r := FormatDate(t);
    assert r[..4] == PadDecimal(t.year, 4);
    assert r[4..6] == PadDecimal(t.month, 2);
    assert r[6..] == PadDecimal(t.day, 2);
  }

  /** The time is `HH:MM`, reading back as the hour and minute; the seconds are dropped. */
  lemma FormatTimeReadsBack(t: DateTime)
    ensures var r := FormatTime(t);
      && |r| == 5 && r[2] == ':'
      && AllDigits(r[..2]) && AllDigits(r[3..])
      && DecimalValue(r[..2]) == t.hour
      && DecimalValue(r[3..]) == t.minute
  {
    DecimalOfPad(t.hour, 2);
    DecimalOfPad(t.minute, 2);
    var r := FormatTime(t);
    assert r[..2] == PadDecimal(t.hour, 2);
    assert r[3..] == PadDecimal(t.minute, 2);
  }

  /**
   * The date and time strings of a parsed timestamp are its own digits,
   * copied from the text with no shift: `YYYYMMDD` and `HH:MM`.
   */
  lemma WallClockDigits(s: string, layout: Layout)
    requires Parse(s, layout).Some?
    ensures FormatDate(Parse(s, layout).value) == s[0..4] + s[5..7] + s[8..10]
    ensures FormatTime(Parse(s, layout).value) == s[11..13] + ":" + s[14..16]
  {
    PadOfDecimal(s[0..4]);
    PadOfDecimal(s[5..7]);
    PadOfDecimal(s[8..10]);
    PadOfDecimal(s[11..13]);
    PadOfDecimal(s[14..16]);
  }
}
