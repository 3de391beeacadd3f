/** Calendar dates of the proleptic Gregorian calendar, years 1 to 9999, and their
    `full-date` text form (section 5.6 of RFC 3339). */
module Dates {

  import opened Basics
  import Text

  const MAX_YEAR := 9999
  /** The ordinal of 9999-12-31 when 0001-01-01 has ordinal 1. */
  const MAX_ORDINAL := 3652059

  datatype Date = Date(year: int, month: int, day: int)

  predicate Leap(year: int) {
    year % 4 == 0 && (year % 100 != 0 || year % 400 == 0)
  }

  function DaysInMonth(year: int, month: int): int {
    if month == 2 then (if Leap(year) then 29 else 28)
    else if month == 4 || month == 6 || month == 9 || month == 11 then 30
    else 31
  }

  predicate Valid(d: Date) {
    1 <= d.year <= MAX_YEAR && 1 <= d.month <= 12 && 1 <= d.day <= DaysInMonth(d.year, d.month)
  }

  type CalendarDate = d: Date | Valid(d) witness Date(1, 1, 1)

  function DaysBeforeYear(year: int): int {
    var y := year - 1;
    y * 365 + y / 4 - y / 100 + y / 400
  }

  function DaysBeforeMonth(year: int, month: int): int
    requires 1 <= month <= 12
    decreases month
  {
    if month == 1 then 0 else DaysBeforeMonth(year, month - 1) + DaysInMonth(year, month - 1)
  }

  /** Days since the day before 0001-01-01; date arithmetic in days is arithmetic on this number. */
  function Ordinal(d: CalendarDate): int {
    DaysBeforeYear(d.year) + DaysBeforeMonth(d.year, d.month) + d.day
  }

  /** Field by field order, which is how two date values are compared. */
  predicate Before(a: CalendarDate, b: CalendarDate) {
    a.year < b.year
    || (a.year == b.year && a.month < b.month)
    || (a.year == b.year && a.month == b.month && a.day < b.day)
  }

  lemma YearLength(year: int)
    ensures DaysBeforeYear(year + 1) - DaysBeforeYear(year) == if Leap(year) then 366 else 365
  {
    OneYearMore(year, 4);
    OneYearMore(year, 100);
    OneYearMore(year, 400);
  }

  lemma OneYearMore(year: int, n: int)
    requires n == 4 || n == 100 || n == 400
    ensures year / n - (year - 1) / n == if year % n == 0 then 1 else 0
  {
    var q, r := year / n, year % n;
    if n == 4 { assert year == 4 * q + r; }
    else if n == 100 { assert year == 100 * q + r; }
    else { assert year == 400 * q + r; }
  }

  lemma {:induction false} MonthsFillTheYear(year: int)
    ensures DaysBeforeMonth(year, 12) + 31 == if Leap(year) then 366 else 365
  {
    MonthTable(year);
  }

  lemma {:induction false} MonthTable(year: int)
    ensures DaysBeforeMonth(year, 12) == 334 + if Leap(year) then 1 else 0
  {
    assert DaysBeforeMonth(year, 3) == 59 + if Leap(year) then 1 else 0;
    assert DaysBeforeMonth(year, 6) == 151 + if Leap(year) then 1 else 0;
    assert DaysBeforeMonth(year, 9) == 243 + if Leap(year) then 1 else 0;
  }

  lemma {:induction false} YearsGrow(a: int, b: int)
    requires a <= b
    ensures DaysBeforeYear(a) <= DaysBeforeYear(b)
    decreases b - a
  {
    if a < b {
      YearsGrow(a, b - 1);
      YearLength(b - 1);
    }
  }

  lemma {:induction false} MonthsGrow(year: int, a: int, b: int)
    requires 1 <= a <= b <= 12
    ensures DaysBeforeMonth(year, a) <= DaysBeforeMonth(year, b)
    ensures a < b ==> DaysBeforeMonth(year, a) + DaysInMonth(year, a) <= DaysBeforeMonth(year, b)
    decreases b - a
  {
    if a < b {
      MonthsGrow(year, a, b - 1);
    }
  }

  /** A day of a year lies strictly after everything before that year and within its length. */
  lemma {:induction false} WithinYear(d: CalendarDate)
    ensures DaysBeforeYear(d.year) < Ordinal(d) <= DaysBeforeYear(d.year + 1)
  {
    MonthsGrow(d.year, 1, d.month);
    MonthsGrow(d.year, d.month, 12);
    MonthsFillTheYear(d.year);
    YearLength(d.year);
  }

  /** Comparing dates field by field is comparing their ordinals, so shifting a date by days and
      then comparing, as the lifecycle rules do, may be stated on ordinals. */
  lemma {:induction false} OrderIsOrdinalOrder(a: CalendarDate, b: CalendarDate)
    ensures Before(a, b) <==> Ordinal(a) < Ordinal(b)
    ensures a == b <==> Ordinal(a) == Ordinal(b)
  {
    if Before(a, b) { BeforeIsSmaller(a, b); }
    if Before(b, a) { BeforeIsSmaller(b, a); }
    assert Before(a, b) || Before(b, a) || a == b;
  }

  lemma {:induction false} BeforeIsSmaller(a: CalendarDate, b: CalendarDate)
    requires Before(a, b)
    ensures Ordinal(a) < Ordinal(b)
  {
    hide DaysBeforeYear, DaysBeforeMonth, DaysInMonth;
    if a.year < b.year {
      hide Ordinal;
      WithinYear(a);
      WithinYear(b);
      YearsGrow(a.year + 1, b.year);
    } else if a.month < b.month {
      MonthsGrow(a.year, a.month, b.month);
      assert a.day <= DaysInMonth(a.year, a.month) && b.day >= 1 by { DaysOfTheMonth(a); DaysOfTheMonth(b); }
    }
  }

  lemma DaysOfTheMonth(d: CalendarDate)
    ensures 1 <= d.month <= 12 && 1 <= d.day <= DaysInMonth(d.year, d.month)
  {
  }

  lemma {:induction false} OrdinalRange(d: CalendarDate)
    ensures 1 <= Ordinal(d) <= MAX_ORDINAL
  {
    WithinYear(d);
    YearsGrow(1, d.year);
    YearsGrow(d.year + 1, MAX_YEAR + 1);
    assert DaysBeforeYear(1) == 0;
    assert DaysBeforeYear(MAX_YEAR + 1) == MAX_ORDINAL;
  }

  lemma FirstDay()
    ensures Ordinal(Date(1, 1, 1)) == 1
  {
    assert DaysBeforeMonth(1, 1) == 0;
  }

  /* ---- text form ---- */

  function TwoDigits(n: int): (s: string)
    requires 0 <= n < 100
    ensures |s| == 2 && Text.IsDigit(s[0]) && Text.IsDigit(s[1])
    ensures Text.DigitValue(s[0]) * 10 + Text.DigitValue(s[1]) == n
  {
    [Text.Digit(n / 10), Text.Digit(n % 10)]
  }

  function Print(d: CalendarDate): (s: string)
    ensures |s| == 10
  {
    TwoDigits(d.year / 100) + TwoDigits(d.year % 100) + "-" + TwoDigits(d.month) + "-" + TwoDigits(d.day)
  }

  /** The shape of a full-date written with ASCII digits. */
  predicate FullDateShape(s: string) {
    |s| == 10 && s[4] == '-' && s[7] == '-'
    && Text.IsDigit(s[0]) && Text.IsDigit(s[1]) && Text.IsDigit(s[2]) && Text.IsDigit(s[3])
    && Text.IsDigit(s[5]) && Text.IsDigit(s[6]) && Text.IsDigit(s[8]) && Text.IsDigit(s[9])
  }

  function Number2(a: char, b: char): (n: int)
    requires Text.IsDigit(a) && Text.IsDigit(b)
    ensures 0 <= n < 100
  {
    Text.DigitValue(a) * 10 + Text.DigitValue(b)
  }

  /** Reads a full-date; anything that is not one, or names no calendar day, yields None. */
  function Parse(s: string): Option<CalendarDate> {
    if !FullDateShape(s) then None
    else
      var d := Date(Number2(s[0], s[1]) * 100 + Number2(s[2], s[3]), Number2(s[5], s[6]), Number2(s[8], s[9]));
      if Valid(d) then Some(d) else None
  }

  lemma PrintThenParse(d: CalendarDate)
    ensures Parse(Print(d)) == Some(d)
  {
    var s := Print(d);
    var a, b, m, n := TwoDigits(d.year / 100), TwoDigits(d.year % 100), TwoDigits(d.month), TwoDigits(d.day);
    assert s[0] == a[0] && s[1] == a[1] && s[2] == b[0] && s[3] == b[1];
    assert s[4] == '-' && s[5] == m[0] && s[6] == m[1];
    assert s[7] == '-' && s[8] == n[0] && s[9] == n[1];
  }

  lemma SameTwoDigits(a: char, b: char)
    requires Text.IsDigit(a) && Text.IsDigit(b)
    ensures TwoDigits(Number2(a, b)) == [a, b]
  {
    var n := Number2(a, b);
    assert n / 10 == Text.DigitValue(a) && n % 10 == Text.DigitValue(b);
    assert Text.Digit(n / 10) == a && Text.Digit(n % 10) == b;
  }

  /** Printing the parsed date gives back exactly the text that was read. */
  lemma ParseThenPrint(s: string)
    requires Parse(s).Some?
    ensures Print(Parse(s).value) == s
  {
    var d := Parse(s).value;
    SameTwoDigits(s[0], s[1]);
    SameTwoDigits(s[2], s[3]);
    SameTwoDigits(s[5], s[6]);
    SameTwoDigits(s[8], s[9]);
    assert d.year / 100 == Number2(s[0], s[1]) && d.year % 100 == Number2(s[2], s[3]);
    assert s == [s[0], s[1]] + [s[2], s[3]] + "-" + [s[5], s[6]] + "-" + [s[8], s[9]];
  }
}
