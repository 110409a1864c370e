/** The proleptic Gregorian calendar behind the JavaScript `Date` object:
    `Date.UTC` and the UTC getters, as section 21.4.1 of ECMA-262 defines them.
    Instants are integers, in milliseconds since 1970-01-01T00:00:00Z; day numbers
    count whole days since then. Dafny's `/` and `%` by a positive number are the
    floor and modulo of that section. */
module JsDate {

  const MS_PER_MINUTE: int := 60_000
  const MS_PER_HOUR: int := 3_600_000
  const MS_PER_DAY: int := 86_400_000

  /** A calendar date; months count from 0, days of the month from 1. */
  datatype Civil = Civil(year: int, month: int, date: int)

  predicate IsLeap(y: int) {
    y % 4 == 0 && (y % 100 != 0 || y % 400 == 0)
  }

  function DaysInYear(y: int): int {
    if IsLeap(y) then 366 else 365
  }

  /** Month lengths; the reference for the table of `DaysBeforeMonth`. */
  function DaysInMonth(y: int, m: int): int {
    if m == 1 then (if IsLeap(y) then 29 else 28)
    else if m == 3 || m == 5 || m == 8 || m == 10 then 30
    else 31
  }

  predicate ValidCivil(c: Civil) {
    0 <= c.month < 12 && 1 <= c.date <= DaysInMonth(c.year, c.month)
  }

  /** The day number of 1 January: the closed form of DayFromYear. */
  function DayFromYear(y: int): int {
    365 * (y - 1970) + (y - 1969) / 4 - (y - 1901) / 100 + (y - 1601) / 400
  }

  /** Days of year `y` before the first day of month `m`: the table of MonthFromTime. */
  function DaysBeforeMonth(y: int, m: int): int
    requires 0 <= m <= 12
  {
    var leap := if IsLeap(y) then 1 else 0;
    if m == 0 then 0
    else if m == 1 then 31
    else leap + if m == 2 then 59 else if m == 3 then 90 else if m == 4 then 120
                else if m == 5 then 151 else if m == 6 then 181 else if m == 7 then 212
                else if m == 8 then 243 else if m == 9 then 273 else if m == 10 then 304
                else if m == 11 then 334 else 365
  }

  /** MakeDay: the day number of a date whose month and day may overflow. */
  function MakeDay(year: int, month: int, date: int): int {
    DayFromYear(year + month / 12) + DaysBeforeMonth(year + month / 12, month % 12) + date - 1
  }

  /** MakeFullYear: `Date.UTC` reads a two-digit year as 19xx. */
  function MakeFullYear(year: int): int {
    if 0 <= year <= 99 then 1900 + year else year
  }

  function DateUTC(year: int, month: int, date: int, h: int, min: int, s: int, ms: int): int {
    MakeDay(MakeFullYear(year), month, date) * MS_PER_DAY
    + h * MS_PER_HOUR + min * MS_PER_MINUTE + s * 1000 + ms
  }

  /** A unit of time is so many of the next smaller one, and years of two digits are of the last century. */
  lemma UnitsCarry(year: int, month: int, date: int, h: int, min: int, s: int, ms: int)
    ensures DateUTC(year, month, date + 1, h, min, s, ms) == DateUTC(year, month, date, h + 24, min, s, ms)
    ensures DateUTC(year, month, date, h + 1, min, s, ms) == DateUTC(year, month, date, h, min + 60, s, ms)
    ensures DateUTC(year, month, date, h, min + 1, s, ms) == DateUTC(year, month, date, h, min, s + 60, ms)
    ensures DateUTC(year, month, date, h, min, s + 1, ms) == DateUTC(year, month, date, h, min, s, ms + 1000)
    ensures DateUTC(year, month, date, h, min, s, ms + 1) == DateUTC(year, month, date, h, min, s, ms) + 1
    ensures 0 <= year <= 99 ==>
      DateUTC(year, month, date, h, min, s, ms) == DateUTC(1900 + year, month, date, h, min, s, ms)
  {
    hide MakeDay;
    OneDateMore(MakeFullYear(year), month, date);
  }

  lemma OneDateMore(year: int, month: int, date: int)
    ensures MakeDay(year, month, date + 1) == MakeDay(year, month, date) + 1
  {
  }

  lemma YearsAround(y: int)
    ensures DayFromYear(y - 1) < DayFromYear(y) < DayFromYear(y + 1) < DayFromYear(y + 2)
  {
    YearStep(y - 1);
    YearStep(y);
    YearStep(y + 1);
  }

  /** YearFromTime: the largest year that starts on or before day `d`, searched from `y`. */
  function SearchYear(d: int, y: int): (r: int)
    ensures DayFromYear(r) <= d < DayFromYear(r + 1)
    decreases if d < DayFromYear(y) then DayFromYear(y) - d
              else if DayFromYear(y + 1) <= d then d - DayFromYear(y + 1) + 1 else 0
  {
    YearsAround(y);
    if d < DayFromYear(y) then SearchYear(d, y - 1)
    else if DayFromYear(y + 1) <= d then SearchYear(d, y + 1)
    else y
  }

  function YearOfDay(d: int): (y: int)
    ensures DayFromYear(y) <= d < DayFromYear(y + 1)
  {
    SearchYear(d, 1970)
  }

  function MonthOfDay(d: int): (m: int)
    ensures 0 <= m < 12
  {
    var y := YearOfDay(d);
    var n := d - DayFromYear(y);
    if n < DaysBeforeMonth(y, 1) then 0
    else if n < DaysBeforeMonth(y, 2) then 1
    else if n < DaysBeforeMonth(y, 3) then 2
    else if n < DaysBeforeMonth(y, 4) then 3
    else if n < DaysBeforeMonth(y, 5) then 4
    else if n < DaysBeforeMonth(y, 6) then 5
    else if n < DaysBeforeMonth(y, 7) then 6
    else if n < DaysBeforeMonth(y, 8) then 7
    else if n < DaysBeforeMonth(y, 9) then 8
    else if n < DaysBeforeMonth(y, 10) then 9
    else if n < DaysBeforeMonth(y, 11) then 10
    else 11
  }

  function CivilOfDay(d: int): Civil {
    var y, m := YearOfDay(d), MonthOfDay(d);
    Civil(y, m, d - DayFromYear(y) - DaysBeforeMonth(y, m) + 1)
  }

  function DayOfCivil(c: Civil): int {
    MakeDay(c.year, c.month, c.date)
  }

  // The getters of a `Date` at instant `t`.

  function DayOf(t: int): int { t / MS_PER_DAY }

  function TimeInDay(t: int): int { t % MS_PER_DAY }

  function GetUTCHours(t: int): int { t / MS_PER_HOUR % 24 }

  function GetUTCMinutes(t: int): int { t / MS_PER_MINUTE % 60 }

  /** The day of the week; 0 is Sunday, and day 0 was a Thursday. */
  function WeekDay(d: int): int { (d + 4) % 7 }

  function GetUTCDay(t: int): int { WeekDay(DayOf(t)) }

  function GetUTCDate(t: int): int { CivilOfDay(DayOf(t)).date }

  function GetUTCMonth(t: int): int { CivilOfDay(DayOf(t)).month }

  function GetUTCFullYear(t: int): int { CivilOfDay(DayOf(t)).year }

  // ---------------------------------------------------------------- years

  lemma QuotientStep(a: int, n: int)
    requires n == 4 || n == 100 || n == 400
    ensures (a + 1) / n == a / n + if (a + 1) % n == 0 then 1 else 0
  {
  }

  /** The closed form counts the days of every year, leap days included. */
  lemma YearStep(y: int)
    ensures DayFromYear(y + 1) == DayFromYear(y) + DaysInYear(y)
  {
    QuotientStep(y - 1969, 4);
    QuotientStep(y - 1901, 100);
    QuotientStep(y - 1601, 400);
  }

  lemma {:induction false} YearsIncrease(y: int, z: int)
    requires y < z
    ensures DayFromYear(y) + 365 <= DayFromYear(z)
    decreases z - y
  {
    YearStep(z - 1);
    if y < z - 1 {
      YearsIncrease(y, z - 1);
    }
  }

  /** A day lies in exactly one year. */
  lemma YearUnique(d: int, y: int)
    requires DayFromYear(y) <= d < DayFromYear(y + 1)
    ensures y == YearOfDay(d)
  {
    var z := YearOfDay(d);
    if y < z {
      if y + 1 < z { YearsIncrease(y + 1, z); }
    } else if z < y {
      if z + 1 < y { YearsIncrease(z + 1, y); }
    }
  }

  // ---------------------------------------------------------------- months

  /** The month table adds up the month lengths, to a whole year. */
  lemma MonthStep(y: int, m: int)
    requires 0 <= m < 12
    ensures DaysBeforeMonth(y, m + 1) == DaysBeforeMonth(y, m) + DaysInMonth(y, m)
    ensures DaysBeforeMonth(y, 12) == DaysInYear(y)
  {
  }

  lemma {:induction false} MonthsIncrease(y: int, m: int, k: int)
    requires 0 <= m <= k <= 12
    ensures DaysBeforeMonth(y, m) <= DaysBeforeMonth(y, k)
    ensures m < k ==> DaysBeforeMonth(y, m) + DaysInMonth(y, m) <= DaysBeforeMonth(y, k)
    decreases k - m
  {
    if m < k {
      MonthStep(y, m);
      MonthsIncrease(y, m + 1, k);
    }
  }

  /** The date of a day is a date of the calendar. */
  lemma CivilOfDayValid(d: int)
    ensures ValidCivil(CivilOfDay(d))
    ensures CivilOfDay(d).year == YearOfDay(d)
  {
    YearStep(YearOfDay(d));
    MonthStep(YearOfDay(d), MonthOfDay(d));
  }

  // ------------------------------------------------------- inverse to each other

  lemma DayOfCivilOfDay(d: int)
    ensures DayOfCivil(CivilOfDay(d)) == d
  {
  }

  /** A day of a year lies in exactly one month. */
  lemma MonthUnique(d: int, m: int)
    requires 0 <= m < 12
    requires DaysBeforeMonth(YearOfDay(d), m) <= d - DayFromYear(YearOfDay(d))
    requires d - DayFromYear(YearOfDay(d)) < DaysBeforeMonth(YearOfDay(d), m + 1)
    ensures m == MonthOfDay(d)
  {
    var y, k := YearOfDay(d), MonthOfDay(d);
    MonthBounds(d);
    if m < k {
      MonthsIncrease(y, m + 1, k);
    } else if k < m {
      MonthsIncrease(y, k + 1, m);
    }
  }

  lemma MonthBounds(d: int)
    ensures DaysBeforeMonth(YearOfDay(d), MonthOfDay(d)) <= d - DayFromYear(YearOfDay(d))
    ensures d - DayFromYear(YearOfDay(d)) < DaysBeforeMonth(YearOfDay(d), MonthOfDay(d) + 1)
  {
    YearStep(YearOfDay(d));
  }

  lemma CivilOfDayOfCivil(c: Civil)
    requires ValidCivil(c)
    ensures CivilOfDay(DayOfCivil(c)) == c
  {
    var y, m := c.year, c.month;
    var d := DayOfCivil(c);
    MakeDayCarries(y, m, c.date);
    MonthStep(y, m);
    MonthsIncrease(y, m + 1, 12);
    MonthsIncrease(y, 0, m);
    YearStep(y);
    YearUnique(d, y);
    MonthUnique(d, m);
  }

  /** Reading a month of a year from `MakeDay` with month overflow. */
  lemma MakeDayCarries(year: int, month: int, date: int)
    requires 0 <= month <= 12
    ensures month < 12 ==> MakeDay(year, month, date) == DayFromYear(year) + DaysBeforeMonth(year, month) + date - 1
    ensures month == 12 ==> MakeDay(year, month, date) == DayFromYear(year + 1) + date - 1
    ensures MakeDay(year, month, 0) == DayFromYear(year) + DaysBeforeMonth(year, month) - 1
  {
    if month == 12 {
      YearStep(year);
    }
  }

  /** Day 0 of the next month is the last day of this one. */
  lemma DayZero(year: int, month: int)
    requires 0 <= month < 12
    ensures CivilOfDay(MakeDay(year, month + 1, 0)) == Civil(year, month, DaysInMonth(year, month))
  {
    hide DayFromYear, DaysBeforeMonth, CivilOfDay, MakeDay;
    var c := Civil(year, month, DaysInMonth(year, month));
    MakeDayCarries(year, month, c.date);
    MakeDayCarries(year, month + 1, 0);
    MonthStep(year, month);
    CivilOfDayOfCivil(c);
  }

  /** A date moved inside its month keeps the month and the year. */
  lemma SameMonth(d: int, date: int)
    requires 1 <= date <= DaysInMonth(CivilOfDay(d).year, CivilOfDay(d).month)
    ensures CivilOfDay(d + date - CivilOfDay(d).date) == CivilOfDay(d).(date := date)
  {
    CivilOfDayValid(d);
    DayOfCivilOfDay(d);
    hide CivilOfDay, DayFromYear, DaysBeforeMonth, MakeDay, DaysInMonth;
    var c := CivilOfDay(d);
    MakeDayCarries(c.year, c.month, c.date);
    MakeDayCarries(c.year, c.month, date);
    CivilOfDayOfCivil(c.(date := date));
  }

  // ---------------------------------------------------------------- anchors

  /** The epoch was Thursday, 1 January 1970. */
  lemma Epoch()
    ensures CivilOfDay(0) == Civil(1970, 0, 1) && WeekDay(0) == 4
  {
    CivilOfDayOfCivil(Civil(1970, 0, 1));
  }

  /** The days of the week follow each other. */
  lemma WeekDayNext(d: int)
    ensures WeekDay(d + 1) == (WeekDay(d) + 1) % 7
  {
  }

  /** The date after a date. */
  function NextDate(c: Civil): Civil {
    if c.date < DaysInMonth(c.year, c.month) then c.(date := c.date + 1)
    else if c.month < 11 then Civil(c.year, c.month + 1, 1)
    else Civil(c.year + 1, 0, 1)
  }

  lemma NextDateIsNextDay(c: Civil)
    requires ValidCivil(c)
    ensures ValidCivil(NextDate(c)) && DayOfCivil(NextDate(c)) == DayOfCivil(c) + 1
  {
    hide DayFromYear, DaysBeforeMonth, MakeDay;
    var n := NextDate(c);
    MakeDayCarries(c.year, c.month, c.date);
    MakeDayCarries(c.year, c.month + 1, 0);
    MakeDayCarries(n.year, n.month, n.date);
    MonthStep(c.year, c.month);
    NoDaysBefore(n.year);
  }

  lemma NoDaysBefore(y: int)
    ensures DaysBeforeMonth(y, 0) == 0
  {
  }

  /** The dates of the days follow each other: with the epoch, this fixes the whole calendar. */
  lemma CivilOfNextDay(d: int)
    ensures CivilOfDay(d + 1) == NextDate(CivilOfDay(d))
  {
    CivilOfDayValid(d);
    DayOfCivilOfDay(d);
    hide CivilOfDay, MakeDay, DaysInMonth;
    NextDateIsNextDay(CivilOfDay(d));
    CivilOfDayOfCivil(NextDate(CivilOfDay(d)));
  }

  // ---------------------------------------------------------------- clock

  lemma EpochYear(d: int)
    requires d >= 0
    ensures YearOfDay(d) >= 1970
  {
    if YearOfDay(d) + 1 < 1970 {
      YearsIncrease(YearOfDay(d) + 1, 1970);
    }
  }

  /** The hour and minute getters read the time in the day. */
  lemma ClockOfTime(t: int)
    ensures t == DayOf(t) * MS_PER_DAY + TimeInDay(t)
    ensures 0 <= TimeInDay(t) < MS_PER_DAY
    ensures GetUTCHours(t) == TimeInDay(t) / MS_PER_HOUR
    ensures GetUTCMinutes(t) == TimeInDay(t) % MS_PER_HOUR / MS_PER_MINUTE
  {
    var d, x := DayOf(t), TimeInDay(t);
    assert t == d * 24 * MS_PER_HOUR + x;
    assert t / MS_PER_HOUR == d * 24 + x / MS_PER_HOUR;
    assert t / MS_PER_MINUTE == d * 1440 + x / MS_PER_MINUTE;
    var h, r := x / MS_PER_HOUR, x % MS_PER_HOUR;
    assert x / MS_PER_MINUTE == h * 60 + r / MS_PER_MINUTE;
  }

  lemma TimeOfClock(d: int, x: int)
    requires 0 <= x < MS_PER_DAY
    ensures DayOf(d * MS_PER_DAY + x) == d && TimeInDay(d * MS_PER_DAY + x) == x
  {
  }
}
