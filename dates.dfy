/** Calendar dates as the script uses them: the `YYYY-MM-DD` strings of the
    form's date input and of `toISOString().split('T')[0]`, a day before and
    after a reference date, `getDay()` and the month key `date.slice(0, 7)`. */
module Dates {
  import opened Options
  import opened Strings

  /** A date of the proleptic Gregorian calendar. */
  datatype Date = Date(year: int, month: int, day: int)

  predicate IsLeapYear(y: int) {
    y % 4 == 0 && (y % 100 != 0 || y % 400 == 0)
  }

  function DaysInMonth(y: int, m: int): (n: int)
    requires 1 <= m <= 12
    ensures 28 <= n <= 31
    ensures n == 29 <==> m == 2 && IsLeapYear(y)
  {
    if m == 2 then (if IsLeapYear(y) then 29 else 28)
    else if m == 4 || m == 6 || m == 9 || m == 11 then 30
    else 31
  }

  predicate IsValid(d: Date) {
    1 <= d.month <= 12 && 1 <= d.day <= DaysInMonth(d.year, d.month)
  }

  /** The day after d (`setDate(getDate() + 1)`, with month and year rollover). */
  function NextDay(d: Date): (r: Date)
    requires IsValid(d)
    ensures IsValid(r)
  {
    if d.day < DaysInMonth(d.year, d.month) then d.(day := d.day + 1)
    else if d.month < 12 then Date(d.year, d.month + 1, 1)
    else Date(d.year + 1, 1, 1)
  }

  /** The day before d (`setDate(getDate() - 1)`). */
  function PrevDay(d: Date): (r: Date)
    requires IsValid(d)
    ensures IsValid(r)
  {
    if d.day > 1 then d.(day := d.day - 1)
    else if d.month > 1 then Date(d.year, d.month - 1, DaysInMonth(d.year, d.month - 1))
    else Date(d.year - 1, 12, 31)
  }

  /** PrevDay and NextDay undo each other. */
  lemma PrevDayNextDay(d: Date)
    requires IsValid(d)
    ensures PrevDay(NextDay(d)) == d
    ensures NextDay(PrevDay(d)) == d
  {
  }

  function DaysBeforeYear(y: int): int {
    365 * (y - 1) + (y - 1) / 4 - (y - 1) / 100 + (y - 1) / 400
  }

  /** Days of year y before the first of month m. */
  function DaysBeforeMonth(y: int, m: int): int
    requires 1 <= m <= 12
  {
    [0, 31, 59, 90, 120, 151, 181, 212, 243, 273, 304, 334][m - 1] +
    (if m > 2 && IsLeapYear(y) then 1 else 0)
  }

  /** Serial day number: 0001-01-01 is day 1. */
  function DayNumber(d: Date): int
    requires IsValid(d)
  {
    DaysBeforeYear(d.year) + DaysBeforeMonth(d.year, d.month) + d.day
  }

  lemma YearLength(y: int)
    ensures DaysBeforeYear(y + 1) - DaysBeforeYear(y) == if IsLeapYear(y) then 366 else 365
  {
    assert y / 4 - (y - 1) / 4 == if y % 4 == 0 then 1 else 0;
    assert y / 100 - (y - 1) / 100 == if y % 100 == 0 then 1 else 0;
    assert y / 400 - (y - 1) / 400 == if y % 400 == 0 then 1 else 0;
    assert y % 400 == 0 ==> y % 100 == 0 && y % 4 == 0;
    assert y % 100 == 0 ==> y % 4 == 0;
  }

  /** Consecutive days have consecutive day numbers, across month and year ends. */
  lemma DayNumberNextDay(d: Date)
    requires IsValid(d)
    ensures DayNumber(NextDay(d)) == DayNumber(d) + 1
  {
    if d.day == DaysInMonth(d.year, d.month) && d.month == 12 {
      YearLength(d.year);
    }
  }

  /** `Date.prototype.getDay`: 0 for Sunday through 6 for Saturday. */
  function Weekday(d: Date): (w: int)
    requires IsValid(d)
    ensures 0 <= w < 7
  {
    DayNumber(d) % 7
  }

  /** The weekday advances by one, modulo 7, from each day to the next. */
  lemma WeekdayNextDay(d: Date)
    requires IsValid(d)
    ensures Weekday(NextDay(d)) == (Weekday(d) + 1) % 7
  {
    DayNumberNextDay(d);
    ModSevenSucc(DayNumber(d));
  }

  lemma ModSevenSucc(n: int)
    ensures (n + 1) % 7 == (n % 7 + 1) % 7
  {
  }

  /** 1 January 1970 was a Thursday. */
  lemma WeekdayOfEpoch()
    ensures Weekday(Date(1970, 1, 1)) == 4
  {
    assert DaysBeforeYear(1970) == 719162;
  }

  /** A date `toISOString` can write with a four-digit year. */
  predicate IsIsoYear(d: Date) {
    0 <= d.year <= 9999
  }

  /** The `YYYY-MM-DD` text of a date. */
  function FormatIso(d: Date): (s: string)
    requires IsValid(d) && IsIsoYear(d)
    ensures |s| == 10
  {
    FixedDigits(d.year, 4) + "-" + FixedDigits(d.month, 2) + "-" + FixedDigits(d.day, 2)
  }

  /** Reading a `YYYY-MM-DD` string as a calendar date, as `new Date(s)` does
      for the date-only format; anything else, or an impossible day, is None
      (an invalid Date). */
  function ParseIso(s: string): (r: Option<Date>)
    ensures r.Some? ==> IsValid(r.value) && IsIsoYear(r.value) && |s| == 10
  {
    if |s| == 10 && s[4] == '-' && s[7] == '-' &&
       AllDigits(s[..4]) && AllDigits(s[5..7]) && AllDigits(s[8..])
    then
      var d := Date(DigitsValue(s[..4]), DigitsValue(s[5..7]), DigitsValue(s[8..]));
      if IsValid(d) then Some(d) else None
    else None
  }

  /** Reading back a formatted date gives the date. */
  lemma ParseIsoOfFormatIso(d: Date)
    requires IsValid(d) && IsIsoYear(d)
    ensures ParseIso(FormatIso(d)) == Some(d)
  {
    var y, m, dd := FixedDigits(d.year, 4), FixedDigits(d.month, 2), FixedDigits(d.day, 2);
    var s := FormatIso(d);
    assert s[..4] == y && s[5..7] == m && s[8..] == dd;
  }

  /** A string that reads as a date is that date's canonical text. */
  lemma FormatIsoOfParseIso(s: string)
    requires ParseIso(s).Some?
    ensures IsIsoYear(ParseIso(s).value)
    ensures FormatIso(ParseIso(s).value) == s
  {
    FixedDigitsOfValue(s[..4]);
    FixedDigitsOfValue(s[5..7]);
    FixedDigitsOfValue(s[8..]);
    assert s == s[..4] + "-" + s[5..7] + "-" + s[8..];
  }

  /** `date.slice(0, 7)`: the first seven characters, or all of a shorter string. */
  function MonthKey(date: string): (k: string)
    ensures |k| == if |date| < 7 then |date| else 7
    ensures k <= date
  {
    if |date| < 7 then date else date[..7]
  }

  /** The month key of a formatted date is its `YYYY-MM` part, so two dates
      share a key exactly when they share year and month. */
  lemma MonthKeyOfFormatIso(d1: Date, d2: Date)
    requires IsValid(d1) && IsIsoYear(d1) && IsValid(d2) && IsIsoYear(d2)
    ensures MonthKey(FormatIso(d1)) == MonthKey(FormatIso(d2)) <==>
            d1.year == d2.year && d1.month == d2.month
  {
    var k1, k2 := MonthKey(FormatIso(d1)), MonthKey(FormatIso(d2));
    assert k1 == FixedDigits(d1.year, 4) + "-" + FixedDigits(d1.month, 2);
    assert k2 == FixedDigits(d2.year, 4) + "-" + FixedDigits(d2.month, 2);
    if k1 == k2 {
      assert k1[..4] == FixedDigits(d1.year, 4) && k2[..4] == FixedDigits(d2.year, 4);
      assert k1[5..] == FixedDigits(d1.month, 2) && k2[5..] == FixedDigits(d2.month, 2);
    }
  }
}
