/**
 * Calendar dates at day precision, as the dashboard handles them: every date is
 * a `YYYY-MM-DD` string read as UTC midnight (the `full-date` form of section
 * 5.6 of RFC 3339). This module gives the date type, its order, the formatter
 * `toInputDate` and the parser behind `new Date(str)`, with the round trips
 * between the two.
 */
module Dates {
  import opened Options

  /** A year-month-day triple, not necessarily a real day. */
  datatype Ymd = Ymd(year: int, month: int, day: int)

  predicate IsLeapYear(y: int) {
    y % 4 == 0 && (y % 100 != 0 || y % 400 == 0)
  }

  function DaysInMonth(y: int, m: int): int
    requires 1 <= m <= 12
  {
    if m == 2 then (if IsLeapYear(y) then 29 else 28)
    else if m == 4 || m == 6 || m == 9 || m == 11 then 30
    else 31
  }

  /**
   * A proleptic Gregorian day whose year fits the four-digit `full-date` form.
   * Year 0 is excluded: a date input's value needs a year of at least 1, and
   * the server's dates start at year 1.
   */
  predicate IsValid(d: Ymd) {
    && 1 <= d.year <= 9999
    && 1 <= d.month <= 12
    && 1 <= d.day <= DaysInMonth(d.year, d.month)
  }

  type Date = d: Ymd | IsValid(d) witness Ymd(1970, 1, 1)

  /** Strict chronological order: `a` is an earlier day than `b`. */
  predicate Before(a: Ymd, b: Ymd) {
    || a.year < b.year
    || (a.year == b.year && a.month < b.month)
    || (a.year == b.year && a.month == b.month && a.day < b.day)
  }

  // ---------------------------------------------------------------------------
  // Time values. A JavaScript Date compares by its millisecond time value; for a
  // day at UTC midnight that is a whole number of days since 1970-01-01.
  // ---------------------------------------------------------------------------

  function YearLength(y: int): int {
    if IsLeapYear(y) then 366 else 365
  }

  /** Days from 0000-01-01 to the first day of year `y`. */
  function DaysBeforeYear(y: nat): nat {
    if y == 0 then 0 else DaysBeforeYear(y - 1) + YearLength(y - 1)
  }

  /** Days from the first of the year to the first of month `m` of year `y`. */
  function DaysBeforeMonth(y: int, m: int): nat
    requires 1 <= m <= 12
  {
    if m == 1 then 0 else DaysBeforeMonth(y, m - 1) + DaysInMonth(y, m - 1)
  }

  /** Days from 0000-01-01 to `d`. */
  function DayNumber(d: Date): nat {
    DaysBeforeYear(d.year) + DaysBeforeMonth(d.year, d.month) + d.day - 1
  }

  const MillisPerDay := 86_400_000

  /** The time value `new Date(...)` holds for `d` at UTC midnight. */
  function EpochMillis(d: Date): int {
    (DayNumber(d) - DayNumber(Ymd(1970, 1, 1))) * MillisPerDay
  }

  /** The twelve months add up to the length of the year. */
  lemma MonthsFillYear(y: int)
    ensures DaysBeforeMonth(y, 12) + DaysInMonth(y, 12) == YearLength(y)
  {
    var feb := DaysInMonth(y, 2);
    assert DaysBeforeMonth(y, 2) == 31;
    assert DaysBeforeMonth(y, 4) == 62 + feb;
    assert DaysBeforeMonth(y, 6) == 123 + feb;
    assert DaysBeforeMonth(y, 8) == 184 + feb;
    assert DaysBeforeMonth(y, 10) == 245 + feb;
    assert DaysBeforeMonth(y, 12) == 306 + feb;
  }

  lemma {:induction false} DaysBeforeMonthMonotone(y: int, m: int, n: int)
    requires 1 <= m < n <= 12
    ensures DaysBeforeMonth(y, m) + DaysInMonth(y, m) <= DaysBeforeMonth(y, n)
    decreases n - m
  {
    if m + 1 < n {
      DaysBeforeMonthMonotone(y, m, n - 1);
    }
  }

  lemma {:induction false} DaysBeforeYearMonotone(y: nat, z: nat)
    requires y < z
    ensures DaysBeforeYear(y) + YearLength(y) <= DaysBeforeYear(z)
    decreases z - y
  {
    if y + 1 < z {
      DaysBeforeYearMonotone(y, z - 1);
    }
  }

  /** An earlier day has a smaller day number. */
  lemma BeforeHasSmallerDayNumber(a: Date, b: Date)
    requires Before(a, b)
    ensures DayNumber(a) < DayNumber(b)
  {
    if a.year < b.year {
      MonthsFillYear(a.year);
      if a.month < 12 {
        DaysBeforeMonthMonotone(a.year, a.month, 12);
      }
      DaysBeforeYearMonotone(a.year, b.year);
    } else if a.month < b.month {
      DaysBeforeMonthMonotone(a.year, a.month, b.month);
    }
  }

  /**
   * Comparing triples with `Before` is the same as comparing the time values
   * the source compares (`<`, `>=`, `<=` on Date objects, `Math.min`/`max`).
   */
  lemma BeforeMatchesTimeValue(a: Date, b: Date)
    ensures Before(a, b) <==> EpochMillis(a) < EpochMillis(b)
    ensures a == b <==> EpochMillis(a) == EpochMillis(b)
  {
    if Before(a, b) {
      BeforeHasSmallerDayNumber(a, b);
    } else if Before(b, a) {
      BeforeHasSmallerDayNumber(b, a);
    }
  }

  // ---------------------------------------------------------------------------
  // Decimal digits
  // ---------------------------------------------------------------------------

  predicate IsDigit(c: char) {
    '0' <= c <= '9'
  }

  predicate AllDigits(s: string) {
    forall i :: 0 <= i < |s| ==> IsDigit(s[i])
  }

  function DigitChar(n: int): (c: char)
    requires 0 <= n < 10
    ensures IsDigit(c)
  {
    (48 + n) as char
  }

  function DigitValue(c: char): int
    requires IsDigit(c)
  {
    c as int - 48
  }

  function Pow10(w: nat): nat {
    if w == 0 then 1 else 10 * Pow10(w - 1)
  }

  /** `n` written in exactly `w` decimal digits, zero-padded on the left. */
  function PadDecimal(n: nat, w: nat): (s: string)
    ensures |s| == w
    ensures AllDigits(s)
  {
    if w == 0 then "" else PadDecimal(n / 10, w - 1) + [DigitChar(n % 10)]
  }

  /** The number a string of decimal digits denotes. */
  function DecimalValue(s: string): (n: nat)
    requires AllDigits(s)
    ensures n < Pow10(|s|)
  {
    if |s| == 0 then 0 else 10 * DecimalValue(s[..|s| - 1]) + DigitValue(s[|s| - 1])
  }

  /** Reading back a padded number gives the number, when it fits the width. */
  lemma {:induction false} DecimalValueOfPad(n: nat, w: nat)
    requires n < Pow10(w)
    ensures DecimalValue(PadDecimal(n, w)) == n
  {
    if w > 0 {
      var s := PadDecimal(n, w);
      assert s[..|s| - 1] == PadDecimal(n / 10, w - 1);
      DecimalValueOfPad(n / 10, w - 1);
    }
  }

  /** Re-padding the value of a digit string to its own width gives the string back. */
  lemma {:induction false} PadOfDecimalValue(s: string)
    requires AllDigits(s)
    ensures PadDecimal(DecimalValue(s), |s|) == s
  {
    if |s| > 0 {
      var init := s[..|s| - 1];
      var n := DecimalValue(s);
      assert n / 10 == DecimalValue(init);
      assert n % 10 == DigitValue(s[|s| - 1]);
      PadOfDecimalValue(init);
      assert s == init + [s[|s| - 1]];
    }
  }

  // ---------------------------------------------------------------------------
  // The full-date form and its parser
  // ---------------------------------------------------------------------------

  /** `YYYY-MM-DD`: ten characters, dashes at 4 and 7, digits elsewhere. */
  predicate IsFullDateShape(s: string) {
    && |s| == 10
    && s[4] == '-' && s[7] == '-'
    && AllDigits(s[0..4]) && AllDigits(s[5..7]) && AllDigits(s[8..10])
  }

  /** The `full-date` text of a day. */
  function FormatDate(d: Date): (s: string)
    ensures IsFullDateShape(s)
    ensures 'T' !in s
  {
    var s := PadDecimal(d.year, 4) + "-" + PadDecimal(d.month, 2) + "-" + PadDecimal(d.day, 2);
    assert s[0..4] == PadDecimal(d.year, 4);
    assert s[5..7] == PadDecimal(d.month, 2);
    assert s[8..10] == PadDecimal(d.day, 2);
    assert forall i :: 0 <= i < |s| && i != 4 && i != 7 ==> IsDigit(s[i]);
    s
  }

  /**
   * `new Date(s)` for a day-precision string: the day it names, or nothing for
   * text that is not a real day in the `full-date` form. Any text it accepts
   * is exactly the formatted text of its day, so no other spelling is read.
   */
  function ParseDate(s: string): (r: Option<Date>)
    ensures r.Some? ==> FormatDate(r.value) == s
    ensures !IsFullDateShape(s) ==> r.None?
  {
    if !IsFullDateShape(s) then None
    else
      var d := Ymd(DecimalValue(s[0..4]), DecimalValue(s[5..7]), DecimalValue(s[8..10]));
      if IsValid(d) then
        FormatOfFields(s, d);
        Some(d)
      else None
  }

  /** Formatting a day and parsing the text gives the same day back. */
  lemma ParseFormatDate(d: Date)
    ensures ParseDate(FormatDate(d)) == Some(d)
  {
    var s := FormatDate(d);
    assert s[0..4] == PadDecimal(d.year, 4);
    assert s[5..7] == PadDecimal(d.month, 2);
    assert s[8..10] == PadDecimal(d.day, 2);
    DecimalValueOfPad(d.year, 4);
    DecimalValueOfPad(d.month, 2);
    DecimalValueOfPad(d.day, 2);
  }

  /** Re-formatting the fields read from a `full-date` text gives the text back. */
  lemma FormatOfFields(s: string, d: Date)
    requires IsFullDateShape(s)
    requires d.year == DecimalValue(s[0..4]) && d.month == DecimalValue(s[5..7]) && d.day == DecimalValue(s[8..10])
    ensures FormatDate(d) == s
  {
    PadOfDecimalValue(s[0..4]);
    PadOfDecimalValue(s[5..7]);
    PadOfDecimalValue(s[8..10]);
    FullDateParts(s);
  }

  /** A `full-date` text is its three digit groups joined by dashes. */
  lemma FullDateParts(s: string)
    requires IsFullDateShape(s)
    ensures s == s[0..4] + "-" + s[5..7] + "-" + s[8..10]
  {
    assert s == s[0..4] + [s[4]] + s[5..7] + [s[7]] + s[8..10];
  }

  // ---------------------------------------------------------------------------
  // Date objects and toInputDate
  // ---------------------------------------------------------------------------

  /** A JavaScript Date at day precision: a UTC-midnight day, or an Invalid Date (time value NaN). */
  datatype Instant = Invalid | At(date: Date)

  /** `new Date(str)` for the strings the date fields hold. */
  function ParseInstant(s: string): (i: Instant)
    ensures i.At? <==> ParseDate(s).Some?
    ensures i.At? ==> FormatDate(i.date) == s
  {
    match ParseDate(s)
    case Some(d) => At(d)
    case None => Invalid
  }

  /** A five-digit year is not in the `full-date` form, so it reads as an Invalid Date. */
  lemma FiveDigitYearIsInvalid()
    ensures ParseInstant("10000-01-01") == Invalid
  {
    assert |"10000-01-01"| == 11;
  }

  /** `a < b` on Date objects: false whenever either side is an Invalid Date. */
  predicate InstantLess(a: Instant, b: Instant) {
    a.At? && b.At? && Before(a.date, b.date)
  }

  /** `toISOString()`: throws a RangeError (None) on an Invalid Date. */
  function ToIsoString(i: Instant): Option<string> {
    match i
    case Invalid => None
    case At(d) => Some(FormatDate(d) + "T00:00:00.000Z")
  }

  /** `str.split(sep)[0]`: the text before the first `sep`, or all of it. */
  function SplitFirst(s: string, sep: char): (r: string)
    ensures |r| <= |s| && r == s[..|r|]
    ensures sep !in r
    ensures |r| < |s| ==> s[|r|] == sep
  {
    if |s| == 0 || s[0] == sep then "" else [s[0]] + SplitFirst(s[1..], sep)
  }

  /**
   * `toInputDate(d)`: the date part of the ISO timestamp. It throws (None)
   * exactly on an Invalid Date; of a day it is that day's `full-date` text.
   */
  function ToInputDate(i: Instant): (r: Option<string>)
    ensures r.None? <==> i.Invalid?
    ensures i.At? ==> r == Some(FormatDate(i.date))
  {
    match ToIsoString(i)
    case None => None
    case Some(iso) =>
      var f := FormatDate(i.date);
      assert iso == f + "T00:00:00.000Z";
      assert iso[|f|] == 'T';
      assert forall k :: 0 <= k < |f| ==> iso[k] == f[k];
      assert SplitFirst(iso, 'T') == f;
      Some(SplitFirst(iso, 'T'))
  }

  /** `toInputDate` of a day parses back to the day: the field round trip. */
  lemma ToInputDateIsFullDate(d: Date)
    ensures ToInputDate(At(d)) == Some(FormatDate(d))
    ensures ParseInstant(ToInputDate(At(d)).value) == At(d)
  {
    ParseFormatDate(d);
  }
}
