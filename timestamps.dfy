/** Calendar dates and times of the proleptic Gregorian calendar as Python's `datetime` keeps
    them, the ISO 8601 text forms the message pipeline reads and writes, and the day of the week.

    The parser accepts the calendar date in extended format (ISO 8601:2004, section 4.1.2.2)
    combined with a time of day (section 4.3.2): `YYYY-MM-DDTHH:MM` or `YYYY-MM-DDTHH:MM:SS`. */
module Timestamps {
  import opened Options
  import opened Text

  datatype Date = Date(year: int, month: int, day: int)

  datatype DateTime = DateTime(date: Date, hour: int, minute: int, second: int)

  predicate IsLeap(y: int)
  {
    y % 4 == 0 && (y % 100 != 0 || y % 400 == 0)
  }

  function DaysInMonth(y: int, m: int): (n: int)
    requires 1 <= m <= 12
    ensures 28 <= n <= 31
  {
    if m == 2 then (if IsLeap(y) then 29 else 28)
    else if m == 4 || m == 6 || m == 9 || m == 11 then 30
    else 31
  }

  /** The dates `datetime.date` can represent. */
  predicate ValidDate(d: Date)
  {
    1 <= d.year <= 9999 && 1 <= d.month <= 12 && 1 <= d.day <= DaysInMonth(d.year, d.month)
  }

  /** The date-times `datetime.datetime` can represent, to the second. */
  predicate Valid(t: DateTime)
  {
    ValidDate(t.date) && 0 <= t.hour < 24 && 0 <= t.minute < 60 && 0 <= t.second < 60
  }

  /** A date-time that `datetime` can hold. */
  type Instant = t: DateTime | Valid(t) witness DateTime(Date(1, 1, 1), 0, 0, 0)

  // ---------------------------------------------------------------- digits

  predicate IsDigit(c: char)
  {
    '0' <= c <= '9'
  }

  function DigitValue(c: char): (d: nat)
    requires IsDigit(c)
    ensures d < 10 && DigitChar(d) == c
  {
    c as int - '0' as int
  }

  /** Two decimal digits, zero-padded (`%02d`). */
  function Pad2(n: nat): (r: string)
    requires n < 100
    ensures |r| == 2 && IsDigit(r[0]) && IsDigit(r[1])
  {
    [DigitChar(n / 10), DigitChar(n % 10)]
  }

  /** Four decimal digits, zero-padded (`%04d`). */
  function Pad4(n: nat): (r: string)
    requires n < 10000
    ensures |r| == 4 && forall i :: 0 <= i < 4 ==> IsDigit(r[i])
  {
    Pad2(n / 100) + Pad2(n % 100)
  }

  predicate DigitAt(s: string, i: nat)
  {
    i < |s| && IsDigit(s[i])
  }

  /** The number written by the two digits at `i`. */
  function Num2(s: string, i: nat): (n: nat)
    requires DigitAt(s, i) && DigitAt(s, i + 1)
    ensures n < 100
  {
    10 * DigitValue(s[i]) + DigitValue(s[i + 1])
  }

  /** The number written by the four digits at `i`. */
  function Num4(s: string, i: nat): (n: nat)
    requires DigitAt(s, i) && DigitAt(s, i + 1) && DigitAt(s, i + 2) && DigitAt(s, i + 3)
    ensures n < 10000
  {
    100 * Num2(s, i) + Num2(s, i + 2)
  }

  /** Reading back two padded digits gives the number. */
  lemma Num2Pad2(s: string, i: nat, n: nat)
    requires n < 100 && i + 2 <= |s| && s[i..i + 2] == Pad2(n)
    ensures DigitAt(s, i) && DigitAt(s, i + 1) && Num2(s, i) == n
  {
    assert s[i] == Pad2(n)[0] && s[i + 1] == Pad2(n)[1];
  }

  /** Padding the number two digits write gives those digits back. */
  lemma Pad2Num2(s: string, i: nat)
    requires DigitAt(s, i) && DigitAt(s, i + 1)
    ensures s[i..i + 2] == Pad2(Num2(s, i))
  {
    var n := Num2(s, i);
    assert n / 10 == DigitValue(s[i]) && n % 10 == DigitValue(s[i + 1]);
  }

  lemma Num4Pad4(s: string, i: nat, n: nat)
    requires n < 10000 && i + 4 <= |s| && s[i..i + 4] == Pad4(n)
    ensures DigitAt(s, i) && DigitAt(s, i + 1) && DigitAt(s, i + 2) && DigitAt(s, i + 3)
    ensures Num4(s, i) == n
  {
    assert s[i..i + 2] == Pad2(n / 100);
    assert s[i + 2..i + 4] == Pad2(n % 100);
    Num2Pad2(s, i, n / 100);
    Num2Pad2(s, i + 2, n % 100);
  }

  lemma Pad4Num4(s: string, i: nat)
    requires DigitAt(s, i) && DigitAt(s, i + 1) && DigitAt(s, i + 2) && DigitAt(s, i + 3)
    ensures s[i..i + 4] == Pad4(Num4(s, i))
  {
    var n := Num4(s, i);
    assert n / 100 == Num2(s, i) && n % 100 == Num2(s, i + 2);
    Pad2Num2(s, i);
    Pad2Num2(s, i + 2);
    assert s[i..i + 4] == s[i..i + 2] + s[i + 2..i + 4];
  }

  // ---------------------------------------------------------------- text forms

  /** `strftime("%Y-%m-%d")`. */
  function DateText(d: Date): (r: string)
    requires ValidDate(d)
  {
    Pad4(d.year) + "-" + Pad2(d.month) + "-" + Pad2(d.day)
  }

  /** `strftime("%H:%M")`. */
  function ClockText(t: DateTime): (r: string)
    requires Valid(t)
  {
    Pad2(t.hour) + ":" + Pad2(t.minute)
  }

  /** `isoformat()` of a date-time without fractional seconds or offset. */
  function IsoFormat(t: DateTime): (r: string)
    requires Valid(t)
  {
    DateText(t.date) + "T" + ClockText(t) + ":" + Pad2(t.second)
  }

  /** `YYYY-MM-DD` at the front of `s`. */
  predicate DateShape(s: string)
  {
    && DigitAt(s, 0) && DigitAt(s, 1) && DigitAt(s, 2) && DigitAt(s, 3)
    && |s| >= 10 && s[4] == '-' && DigitAt(s, 5) && DigitAt(s, 6)
    && s[7] == '-' && DigitAt(s, 8) && DigitAt(s, 9)
  }

  /** `HH:MM` at position `i` of `s`. */
  predicate ClockShape(s: string, i: nat)
  {
    DigitAt(s, i) && DigitAt(s, i + 1) && i + 2 < |s| && s[i + 2] == ':' && DigitAt(s, i + 3) && DigitAt(s, i + 4)
  }

  /** The date written at the front of a text of date shape. */
  function DateOf(s: string): Date
    requires DateShape(s)
  {
    Date(Num4(s, 0), Num2(s, 5), Num2(s, 8))
  }

  /** `datetime.fromisoformat` on the two accepted shapes; `None` is the `ValueError` it raises
      for any other text and for a date or time out of range. */
  function ParseIso(s: string): (r: Option<DateTime>)
    ensures r.Some? ==> Valid(r.value)
  {
    if (|s| == 16 || |s| == 19) && DateShape(s) && s[10] == 'T' && ClockShape(s, 11)
       && (|s| == 19 ==> s[16] == ':' && DigitAt(s, 17) && DigitAt(s, 18))
    then
      var t := DateTime(DateOf(s), Num2(s, 11), Num2(s, 14), if |s| == 19 then Num2(s, 17) else 0);
      if Valid(t) then Some(t) else None
    else None
  }

  /** How pandas reads a `YYYY-MM-DD` text: the date, or `None` when it is not one. */
  function ParseDate(s: string): (r: Option<Date>)
    ensures r.Some? ==> ValidDate(r.value)
  {
    if |s| == 10 && DateShape(s) && ValidDate(DateOf(s)) then Some(DateOf(s)) else None
  }

  /** How pandas reads an `HH:MM` text: the hour and the minute, or `None`. */
  function ParseClock(s: string): (r: Option<(int, int)>)
    ensures r.Some? ==> 0 <= r.value.0 < 24 && 0 <= r.value.1 < 60
  {
    if |s| == 5 && ClockShape(s, 0) && Num2(s, 0) < 24 && Num2(s, 3) < 60 then Some((Num2(s, 0), Num2(s, 3)))
    else None
  }

  /** The text forms cut out of the ISO form: the date is its first ten characters and the
      clock the five after the `T`. */
  lemma IsoFormatParts(t: DateTime)
    requires Valid(t)
    ensures var s := IsoFormat(t);
      |s| == 19 && s[..10] == DateText(t.date) && s[10] == 'T' && s[11..16] == ClockText(t)
      && s[16] == ':' && s[17..] == Pad2(t.second)
  {
  }

  /** The date form has date shape and names its date. */
  lemma DateTextShape(d: Date)
    requires ValidDate(d)
    ensures var s := DateText(d); |s| == 10 && DateShape(s) && DateOf(s) == d
  {
    var s := DateText(d);
    Num4Pad4(s, 0, d.year);
    assert s[5..7] == Pad2(d.month);
    Num2Pad2(s, 5, d.month);
    assert s[8..10] == Pad2(d.day);
    Num2Pad2(s, 8, d.day);
  }

  /** Reading back a date form gives the date. */
  lemma ParseDateText(d: Date)
    requires ValidDate(d)
    ensures ParseDate(DateText(d)) == Some(d)
  {
    DateTextShape(d);
  }

  /** Reading back a clock form gives its hour and minute. */
  lemma ParseClockText(t: DateTime)
    requires Valid(t)
    ensures ParseClock(ClockText(t)) == Some((t.hour, t.minute))
  {
    var s := ClockText(t);
    assert s[0..2] == Pad2(t.hour);
    Num2Pad2(s, 0, t.hour);
    assert s[3..5] == Pad2(t.minute);
    Num2Pad2(s, 3, t.minute);
  }

  /** Round trip: parsing the ISO form of a date-time gives that date-time. */
  lemma ParseIsoFormat(t: DateTime)
    requires Valid(t)
    ensures ParseIso(IsoFormat(t)) == Some(t)
  {
    var s := IsoFormat(t);
    IsoFormatParts(t);
    DateTextShape(t.date);
    assert s[..10][..] == DateText(t.date);
    assert forall i :: 0 <= i < 10 ==> s[i] == DateText(t.date)[i];
    assert DateShape(s);
    assert DateOf(s) == DateOf(DateText(t.date)) by {
      assert s[..10] == DateText(t.date);
    }
    assert s[11..13] == Pad2(t.hour);
    Num2Pad2(s, 11, t.hour);
    assert s[14..16] == Pad2(t.minute);
    Num2Pad2(s, 14, t.minute);
    assert s[17..19] == Pad2(t.second);
    Num2Pad2(s, 17, t.second);
  }

  /** A text of date shape whose date is valid starts with the date form of that date. */
  lemma DateTextOfShape(s: string)
    requires DateShape(s) && ValidDate(DateOf(s))
    ensures DateText(DateOf(s)) == s[..10]
  {
    var d := DateOf(s);
    Pad4Num4(s, 0);
    Pad2Num2(s, 5);
    Pad2Num2(s, 8);
    assert s[..10] == s[0..4] + s[4..5] + s[5..7] + s[7..8] + s[8..10];
  }

  /** The clock form of a valid date-time read from a clock shape at 11 is that clock text. */
  lemma ClockTextOfShape(s: string, t: DateTime)
    requires ClockShape(s, 11) && Valid(t) && t.hour == Num2(s, 11) && t.minute == Num2(s, 14)
    ensures ClockText(t) == s[11..16]
  {
    Pad2Num2(s, 11);
    Pad2Num2(s, 14);
    assert s[11..16] == s[11..13] + s[13..14] + s[14..16];
  }

  /** The other direction: a text of the long shape that parses is the ISO form of what it
      parses to, so the two are inverse on that shape; the short shape is the ISO form without
      its `:00` seconds. */
  lemma IsoFormatOfParse(s: string)
    requires ParseIso(s).Some?
    ensures var t := ParseIso(s).value;
      (|s| == 19 ==> IsoFormat(t) == s) && (|s| == 16 ==> IsoFormat(t) == s + ":00")
  {
    var t := ParseIso(s).value;
    DateTextOfShape(s);
    ClockTextOfShape(s, t);
    if |s| == 19 {
      Pad2Num2(s, 17);
      assert s == s[..10] + s[10..11] + s[11..16] + s[16..17] + s[17..19];
    } else {
      assert s == s[..10] + s[10..11] + s[11..16];
    }
  }

  // ---------------------------------------------------------------- day of the week

  const WeekdayNames: seq<string> :=
    ["Monday", "Tuesday", "Wednesday", "Thursday", "Friday", "Saturday", "Sunday"]

  /** Days in the years before `y` (`_days_before_year`). */
  function DaysBeforeYear(y: int): int
    requires y >= 1
  {
    var p := y - 1;
    p * 365 + p / 4 - p / 100 + p / 400
  }

  /** Days in the months of year `y` before month `m`. */
  function DaysBeforeMonth(y: int, m: int): nat
    requires 1 <= m <= 12
  {
    if m == 1 then 0 else DaysBeforeMonth(y, m - 1) + DaysInMonth(y, m - 1)
  }

  /** The proleptic Gregorian ordinal: 0001-01-01 is day 1 (`date.toordinal`). */
  function Ordinal(d: Date): int
    requires ValidDate(d)
  {
    DaysBeforeYear(d.year) + DaysBeforeMonth(d.year, d.month) + d.day
  }

  /** `date.weekday()`: 0 is Monday. */
  function WeekdayIndex(d: Date): (w: nat)
    requires ValidDate(d)
    ensures w < 7
  {
    (Ordinal(d) - 1) % 7
  }

  /** `day_name()`: the English name of the day of the week. */
  function DayName(d: Date): (r: string)
    requires ValidDate(d)
    ensures r in WeekdayNames
  {
    WeekdayNames[WeekdayIndex(d)]
  }

  /** The calendar's successor of a date. */
  function NextDay(d: Date): Date
    requires ValidDate(d)
  {
    if d.day < DaysInMonth(d.year, d.month) then Date(d.year, d.month, d.day + 1)
    else if d.month < 12 then Date(d.year, d.month + 1, 1)
    else Date(d.year + 1, 1, 1)
  }

  /** A year has 366 days when it is a leap year and 365 otherwise. */
  lemma DaysBeforeNextYear(y: int)
    requires y >= 1
    ensures DaysBeforeYear(y + 1) == DaysBeforeYear(y) + (if IsLeap(y) then 366 else 365)
  {
    assert y / 4 - (y - 1) / 4 == (if y % 4 == 0 then 1 else 0);
    assert y / 100 - (y - 1) / 100 == (if y % 100 == 0 then 1 else 0);
    assert y / 400 - (y - 1) / 400 == (if y % 400 == 0 then 1 else 0);
  }

  /** The months of a year add up to the year's length. */
  lemma DaysInYear(y: int)
    ensures DaysBeforeMonth(y, 12) + DaysInMonth(y, 12) == (if IsLeap(y) then 366 else 365)
  {
    var feb := DaysInMonth(y, 2);
    assert DaysBeforeMonth(y, 2) == 31;
    assert DaysBeforeMonth(y, 3) == 31 + feb;
    assert DaysBeforeMonth(y, 4) == 62 + feb;
    assert DaysBeforeMonth(y, 5) == 92 + feb;
    assert DaysBeforeMonth(y, 6) == 123 + feb;
    assert DaysBeforeMonth(y, 7) == 153 + feb;
    assert DaysBeforeMonth(y, 8) == 184 + feb;
    assert DaysBeforeMonth(y, 9) == 215 + feb;
    assert DaysBeforeMonth(y, 10) == 245 + feb;
    assert DaysBeforeMonth(y, 11) == 276 + feb;
  }

  /** The successor of a date is a date whose ordinal is one more, unless it is the last date
      `datetime` can hold. */
  lemma NextDayOrdinal(d: Date)
    requires ValidDate(d) && d != Date(9999, 12, 31)
    ensures ValidDate(NextDay(d)) && Ordinal(NextDay(d)) == Ordinal(d) + 1
  {
    if d.day == DaysInMonth(d.year, d.month) && d.month == 12 {
      DaysBeforeNextYear(d.year);
      DaysInYear(d.year);
    }
  }

  /** Consecutive dates fall on consecutive days of the week. */
  lemma NextDayWeekday(d: Date)
    requires ValidDate(d) && d != Date(9999, 12, 31)
    ensures WeekdayIndex(NextDay(d)) == (WeekdayIndex(d) + 1) % 7
  {
    NextDayOrdinal(d);
    SuccessorMod7(Ordinal(d) - 1);
  }

  lemma SuccessorMod7(n: int)
    ensures (n + 1) % 7 == (n % 7 + 1) % 7
  {
    var q := n / 7;
    assert n == 7 * q + n % 7;
    assert n + 1 == 7 * q + (n % 7 + 1);
  }

  /** The first day of the calendar, and the fifteenth of January 2024, were Mondays. */
  lemma MondayAnchors()
    ensures DayName(Date(1, 1, 1)) == "Monday"
    ensures DayName(Date(2024, 1, 15)) == "Monday"
  {
    assert DaysBeforeMonth(2024, 1) == 0;
    assert Ordinal(Date(2024, 1, 15)) == 738900;
  }

  // ---------------------------------------------------------------- pandas range

  /** Lexicographic order of dates. */
  predicate DateLe(a: Date, b: Date)
  {
    a.year < b.year || (a.year == b.year && (a.month < b.month || (a.month == b.month && a.day <= b.day)))
  }

  /** The dates whose midnight a nanosecond timestamp of pandas can hold, from 1677-09-22 to
      2262-04-11; `pd.to_datetime` raises an out-of-bounds error for the others. */
  predicate InTimestampRange(d: Date)
  {
    DateLe(Date(1677, 9, 22), d) && DateLe(d, Date(2262, 4, 11))
  }
}
