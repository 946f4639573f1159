/** Calendar dates as day numbers: the number of days since 1970-01-01 in
    the proleptic Gregorian calendar, which is what the `YYYY-MM-DD` strings
    and midnight timestamps of the source denote. Timestamps are integer
    milliseconds since the epoch. */
module Dates {

  /** Milliseconds in a day, `24 * 60 * 60 * 1000`. */
  const DayMs: int := 86400000

  datatype CivilDate = CivilDate(year: int, month: int, day: int)

  predicate IsLeapYear(y: int) {
    y % 4 == 0 && (y % 100 != 0 || y % 400 == 0)
  }

  function DaysInMonth(y: int, m: int): int
    requires 1 <= m <= 12
  {
    if m == 2 then (if IsLeapYear(y) then 29 else 28)
    else if m == 4 || m == 6 || m == 9 || m == 11 then 30
    else 31
  }

  predicate ValidDate(d: CivilDate) {
    1 <= d.month <= 12 && 1 <= d.day <= DaysInMonth(d.year, d.month)
  }

  /** Days from March 1 of year 0 to March 1 of year `y' + 1`, less one
      year: 400-year eras of 146097 days, then 365 days a year plus the
      leap days (Howard Hinnant's `days_from_civil`). */
  function MarchCount(y': int): int {
    var era := y' / 400;
    var yoe := y' % 400;
    era * 146097 + yoe * 365 + yoe / 4 - yoe / 100
  }

  /** The day of a March-based year on which month `m` starts. */
  function MarchDays(m: int): int
    requires 1 <= m <= 12
  {
    match m
    case 3 => 0
    case 4 => 31
    case 5 => 61
    case 6 => 92
    case 7 => 122
    case 8 => 153
    case 9 => 184
    case 10 => 214
    case 11 => 245
    case 12 => 275
    case 1 => 306
    case _ => 337
  }

  /** Days since 1970-01-01 of the first day of month `m` of year `y`:
      January and February count in the March-based year that began in
      `y - 1`. */
  function MonthStart(y: int, m: int): int
    requires 1 <= m <= 12
  {
    MarchCount(if m <= 2 then y - 1 else y) + MarchDays(m) - 719468
  }

  /** The day number of a calendar date. */
  function DayNumber(d: CivilDate): int
    requires 1 <= d.month <= 12
  {
    MonthStart(d.year, d.month) + d.day - 1
  }

  /** The day number of `new Date(year, monthIndex, day)`: a year from 0 to 99
      means 1900 + year, and a month index or day out of range rolls over
      into the neighbouring months and years. */
  function JsDateDay(year: int, monthIndex: int, day: int): (r: int)
    ensures 100 <= year && 0 <= monthIndex < 12 ==>
      r == DayNumber(CivilDate(year, monthIndex + 1, day))
  {
    var fullYear := if 0 <= year <= 99 then 1900 + year else year;
    MonthStart(fullYear + monthIndex / 12, monthIndex % 12 + 1) + day - 1
  }

  /** From March 1 of year `y - 1` to March 1 of year `y` there are 365 days,
      366 when February of year `y` has 29. */
  lemma MarchToMarch(y: int)
    ensures MarchCount(y) - MarchCount(y - 1) == if IsLeapYear(y) then 366 else 365
  {
    var r := y % 400;
    YearBefore(y);
    LeapInEra(y);
    if r != 0 {
      LeapDaysStep(r);
    }
  }

  /** Stepping back one year moves to the previous era only from its first year. */
  lemma YearBefore(y: int)
    ensures y % 400 == 0 ==> (y - 1) / 400 == y / 400 - 1 && (y - 1) % 400 == 399
    ensures y % 400 != 0 ==> (y - 1) / 400 == y / 400 && (y - 1) % 400 == y % 400 - 1
  {
  }

  /** Leap years repeat every 400 years. */
  lemma LeapInEra(y: int)
    ensures IsLeapYear(y) <==> IsLeapYear(y % 400)
  {
    var q := y / 400;
    var r := y % 400;
    assert y == 4 * (100 * q + r / 4) + r % 4;
    assert y % 4 == r % 4;
    assert y == 100 * (4 * q + r / 100) + r % 100;
    assert y % 100 == r % 100;
  }

  /** Year `r` of an era adds one leap day over year `r - 1` when it is a
      leap year. */
  lemma LeapDaysStep(r: int)
    requires 1 <= r < 400
    ensures r / 4 - (r - 1) / 4 - (r / 100 - (r - 1) / 100) == if IsLeapYear(r) then 1 else 0
  {
    assert r / 4 - (r - 1) / 4 == if r % 4 == 0 then 1 else 0;
    assert r / 100 - (r - 1) / 100 == if r % 100 == 0 then 1 else 0;
  }

  /** Consecutive months abut: each month starts the day after the previous
      month's last day, across the year boundary too. */
  lemma MonthsAbut(y: int, m: int)
    requires 1 <= m <= 12
    ensures m < 12 ==> MonthStart(y, m + 1) == MonthStart(y, m) + DaysInMonth(y, m)
    ensures m == 12 ==> MonthStart(y + 1, 1) == MonthStart(y, 12) + 31
  {
    if m == 2 {
      MarchToMarch(y);
    }
  }

  /** The day after the last day of a month is the first day of the next. */
  lemma NextDay(d: CivilDate)
    requires ValidDate(d)
    ensures d.day < DaysInMonth(d.year, d.month) ==>
      DayNumber(CivilDate(d.year, d.month, d.day + 1)) == DayNumber(d) + 1
    ensures d.day == DaysInMonth(d.year, d.month) && d.month < 12 ==>
      DayNumber(CivilDate(d.year, d.month + 1, 1)) == DayNumber(d) + 1
    ensures d.day == DaysInMonth(d.year, d.month) && d.month == 12 ==>
      DayNumber(CivilDate(d.year + 1, 1, 1)) == DayNumber(d) + 1
  {
    MonthsAbut(d.year, d.month);
  }

  /** 1970-01-01 is day 0, and 2000-03-01 is day 11017. */
  lemma EpochIsDayZero()
    ensures DayNumber(CivilDate(1970, 1, 1)) == 0
    ensures DayNumber(CivilDate(2000, 3, 1)) == 11017
  {
    assert MarchCount(1969) == 719162;
    assert MarchCount(2000) == 730485;
  }
}
