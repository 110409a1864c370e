/** Recurring schedules in the UTC+7 calendar of Jakarta: when a schedule runs next. */
module Schedule {
  import opened Common
  import opened JsDate

  const JAKARTA_OFFSET: int := 7 * 60 * 60 * 1000

  datatype RepeatType = Daily | Weekly | Monthly | Unknown(name: string)

  datatype Schedule = Schedule(
    repeatType: RepeatType,
    sendHour: int,
    sendMinute: int,
    dayOfWeek: Option<int>,
    dayOfMonth: Option<int>)
  {
    /** What the create request is checked against, and the repeat types of the table. */
    predicate Valid() {
      && !repeatType.Unknown?
      && 0 <= sendHour < 24
      && 0 <= sendMinute < 60
      && (dayOfWeek.Some? ==> 0 <= dayOfWeek.value <= 6)
      && (dayOfMonth.Some? ==> 1 <= dayOfMonth.value <= 31)
    }

    function TargetDow(): int { if dayOfWeek.Some? then dayOfWeek.value else 0 }

    function TargetDom(): int { if dayOfMonth.Some? then dayOfMonth.value else 1 }

    /** The time of day a valid schedule sends at. */
    function SendTime(): int { sendHour * MS_PER_HOUR + sendMinute * MS_PER_MINUTE }
  }

  function Min(a: int, b: int): int { if a <= b then a else b }

  /** JavaScript's `%`, whose result has the sign of the left side. */
  function Rem(a: int, b: int): int
    requires b > 0
  {
    if a >= 0 then a % b else -(-a % b)
  }

  /** `computeNextRunAt`. */
  function ComputeNextRunAt(sm: Schedule, from: int): Result<int> {
    var jFrom := from + JAKARTA_OFFSET;
    var jH, jM := GetUTCHours(jFrom), GetUTCMinutes(jFrom);
    var jDow, jDom := GetUTCDay(jFrom), GetUTCDate(jFrom);
    var jMonth, jYear := GetUTCMonth(jFrom), GetUTCFullYear(jFrom);
    var sendH, sendM := sm.sendHour, sm.sendMinute;
    var isPastToday := jH > sendH || (jH == sendH && jM >= sendM);
    match sm.repeatType
    case Daily =>
      var jNext := DateUTC(jYear, jMonth, jDom, sendH, sendM, 0, 0);
      Ok((if isPastToday then jNext + 24 * 3_600_000 else jNext) - JAKARTA_OFFSET)
    case Weekly =>
      var ahead := Rem(sm.TargetDow() - jDow + 7, 7);
      var daysAhead := if ahead == 0 && isPastToday then 7 else ahead;
      Ok(DateUTC(jYear, jMonth, jDom + daysAhead, sendH, sendM, 0, 0) - JAKARTA_OFFSET)
    case Monthly =>
      var daysThisMonth := GetUTCDate(DateUTC(jYear, jMonth + 1, 0, 0, 0, 0, 0));
      var clampedDom := Min(sm.TargetDom(), daysThisMonth);
      var isPastThisMonth := jDom > clampedDom || (jDom == clampedDom && isPastToday);
      if !isPastThisMonth then
        Ok(DateUTC(jYear, jMonth, clampedDom, sendH, sendM, 0, 0) - JAKARTA_OFFSET)
      else
        var nextM := if jMonth + 1 > 11 then 0 else jMonth + 1;
        var nextY := if jMonth + 1 > 11 then jYear + 1 else jYear;
        var daysNextMonth := GetUTCDate(DateUTC(nextY, nextM + 1, 0, 0, 0, 0, 0));
        Ok(DateUTC(nextY, nextM, Min(sm.TargetDom(), daysNextMonth), sendH, sendM, 0, 0) - JAKARTA_OFFSET)
    case Unknown(name) => Err("Unknown repeatType: " + name)
  }

  /** The next run of a schedule that has one. */
  function NextRun(sm: Schedule, from: int): int
    requires sm.Valid()
  {
    ComputeNextRunAt(sm, from).value
  }

  // ---------------------------------------------------------------- the specification

  /** The Jakarta days a schedule falls on; a month shorter than the wanted day uses its last. */
  predicate MatchesDay(sm: Schedule, d: int) {
    match sm.repeatType
    case Daily => true
    case Weekly => WeekDay(d) == sm.TargetDow()
    case Monthly =>
      var c := CivilOfDay(d);
      c.date == Min(sm.TargetDom(), DaysInMonth(c.year, c.month))
    case Unknown(_) => false
  }

  /** `t` reads exactly sendHour:sendMinute:00.000 in Jakarta, on a matching day. */
  predicate IsOccurrence(sm: Schedule, t: int) {
    && TimeInDay(t + JAKARTA_OFFSET) == sm.SendTime()
    && MatchesDay(sm, DayOf(t + JAKARTA_OFFSET))
  }

  ghost predicate IsLeastAfter(sm: Schedule, from: int, r: int) {
    && from < r
    && IsOccurrence(sm, r)
    && forall t | from < t < r :: !IsOccurrence(sm, t)
  }

  /** The same from the ground up: 25200000 ms ahead of UTC, on day `e` of that calendar, at the sending
      time; day 3 was a Sunday. */
  predicate FallsOn(sm: Schedule, t: int) {
    && (t + 25_200_000) % 86_400_000 == (sm.sendHour * 60 + sm.sendMinute) * 60_000
    && OnDay(sm, (t + 25_200_000) / 86_400_000)
  }

  predicate OnDay(sm: Schedule, e: int) {
    match sm.repeatType
    case Daily => true
    case Weekly =>
      || (sm.dayOfWeek.Some? && (e - 3 - sm.dayOfWeek.value) % 7 == 0)
      || (sm.dayOfWeek.None? && (e - 3) % 7 == 0)
    case Monthly =>
      var c := CivilOfDay(e);
      var length := DaysInMonth(c.year, c.month);
      || (sm.dayOfMonth.Some? && sm.dayOfMonth.value <= length && c.date == sm.dayOfMonth.value)
      || (sm.dayOfMonth.Some? && sm.dayOfMonth.value > length && c.date == length)
      || (sm.dayOfMonth.None? && c.date == 1)
    case Unknown(_) => false
  }

  lemma MatchesOnDay(sm: Schedule, e: int)
    requires sm.Valid()
    ensures MatchesDay(sm, e) <==> OnDay(sm, e)
  {
    CivilOfDayValid(e);
    if sm.repeatType.Weekly? { DayOfWeek(e, sm.TargetDow()); }
    hide CivilOfDay, WeekDay, IsLeap;
  }

  lemma DayOfWeek(e: int, k: int)
    requires 0 <= k <= 6
    ensures WeekDay(e) == k <==> (e - 3 - k) % 7 == 0
  {
    assert e + 4 == 7 * ((e + 4) / 7) + WeekDay(e);
    assert (e - 3 - k) % 7 == (WeekDay(e) - k) % 7;
  }

  lemma OccurrenceFalls(sm: Schedule, t: int)
    requires sm.Valid()
    ensures IsOccurrence(sm, t) <==> FallsOn(sm, t)
  {
    MatchesOnDay(sm, DayOf(t + JAKARTA_OFFSET));
    hide MatchesDay, OnDay;
  }

  // ---------------------------------------------------------------- days

  function MonthStart(d: int): int { d - CivilOfDay(d).date + 1 }

  function MonthLength(d: int): int { DaysInMonth(CivilOfDay(d).year, CivilOfDay(d).month) }

  lemma InMonth(d: int, e: int)
    requires MonthStart(d) <= e < MonthStart(d) + MonthLength(d)
    ensures CivilOfDay(e) == CivilOfDay(d).(date := e - MonthStart(d) + 1)
    ensures MonthStart(e) == MonthStart(d) && MonthLength(e) == MonthLength(d)
  {
    SameMonth(d, e - MonthStart(d) + 1);
  }

  function NextMonth(c: Civil): Civil {
    if c.month + 1 > 11 then Civil(c.year + 1, 0, 1) else Civil(c.year, c.month + 1, 1)
  }

  /** The month after the one of day `d` starts where that one ends. */
  lemma MonthFollows(d: int)
    ensures CivilOfDay(MonthStart(d) + MonthLength(d)) == NextMonth(CivilOfDay(d))
  {
    hide CivilOfDay, DayFromYear;
    var c := CivilOfDay(d);
    CivilOfDayValid(d);
    DayOfCivilOfDay(d);
    MonthEnds(c);
    CivilOfDayOfCivil(NextMonth(c));
  }

  lemma MonthEnds(c: Civil)
    requires ValidCivil(c)
    ensures ValidCivil(NextMonth(c))
    ensures DayOfCivil(NextMonth(c)) == DayOfCivil(c) - c.date + 1 + DaysInMonth(c.year, c.month)
  {
    hide DayFromYear, DaysBeforeMonth, MakeDay;
    MakeDayCarries(c.year, c.month, c.date);
    MakeDayCarries(c.year, c.month + 1, 0);
    MonthStep(c.year, c.month);
    var n := NextMonth(c);
    MakeDayCarries(n.year, n.month, 1);
    FirstDay(n.year);
  }

  lemma FirstDay(y: int)
    ensures DaysBeforeMonth(y, 0) == 0
  {
  }

  /** The day picked when the wall clock shows day `d`, at or past the sending time or not. */
  function NextDay(sm: Schedule, d: int, past: bool): int {
    match sm.repeatType
    case Daily => if past then d + 1 else d
    case Weekly =>
      var ahead := (sm.TargetDow() - WeekDay(d) + 7) % 7;
      d + if ahead == 0 && past then 7 else ahead
    case Monthly =>
      var dom := MonthStart(d) + Min(sm.TargetDom(), MonthLength(d)) - 1;
      var start := MonthStart(d) + MonthLength(d);
      if d < dom || (d == dom && !past) then dom
      else start + Min(sm.TargetDom(), MonthLength(start)) - 1
    case Unknown(_) => d
  }

  lemma MonthlyMatch(sm: Schedule, d: int, e: int)
    requires sm.Valid() && sm.repeatType.Monthly?
    requires MonthStart(d) <= e < MonthStart(d) + MonthLength(d)
    ensures MatchesDay(sm, e) <==> e == MonthStart(d) + Min(sm.TargetDom(), MonthLength(d)) - 1
  {
    InMonth(d, e);
  }

  lemma NextDayMonthly(sm: Schedule, d: int, past: bool)
    requires sm.Valid() && sm.repeatType.Monthly?
    ensures NextDay(sm, d, past) >= if past then d + 1 else d
    ensures MatchesDay(sm, NextDay(sm, d, past))
    ensures forall e | (if past then d + 1 else d) <= e < NextDay(sm, d, past) :: !MatchesDay(sm, e)
  {
    hide CivilOfDay, MatchesDay, DaysInMonth, MonthStart, MonthLength;
    var start := MonthStart(d) + MonthLength(d);
    MonthFacts(d);
    MonthFacts(start);
    MonthlyMatch(sm, start, start + Min(sm.TargetDom(), MonthLength(start)) - 1);
    MonthlyMatch(sm, d, MonthStart(d) + Min(sm.TargetDom(), MonthLength(d)) - 1);
    forall e | (if past then d + 1 else d) <= e < NextDay(sm, d, past) ensures !MatchesDay(sm, e) {
      if e < start { MonthlyMatch(sm, d, e); } else { MonthlyMatch(sm, start, e); }
    }
  }

  /** The picked day matches, and no day before it does. */
  lemma NextDayIsLeast(sm: Schedule, d: int, past: bool)
    requires sm.Valid()
    ensures NextDay(sm, d, past) >= if past then d + 1 else d
    ensures MatchesDay(sm, NextDay(sm, d, past))
    ensures forall e | (if past then d + 1 else d) <= e < NextDay(sm, d, past) :: !MatchesDay(sm, e)
  {
    hide CivilOfDay, DaysInMonth;
    if sm.repeatType.Monthly? {
      NextDayMonthly(sm, d, past);
    }
  }

  lemma MonthFacts(d: int)
    ensures 28 <= MonthLength(d) <= 31
    ensures MonthStart(d) <= d < MonthStart(d) + MonthLength(d)
    ensures MonthStart(MonthStart(d) + MonthLength(d)) == MonthStart(d) + MonthLength(d)
  {
    CivilOfDayValid(d);
    MonthFollows(d);
  }

  // ---------------------------------------------------------------- what the code computes

  lemma PastToday(sm: Schedule, t: int)
    requires sm.Valid()
    ensures (GetUTCHours(t) > sm.sendHour || (GetUTCHours(t) == sm.sendHour && GetUTCMinutes(t) >= sm.sendMinute))
       <==> TimeInDay(t) >= sm.SendTime()
  {
    ClockOfTime(t);
  }

  /** `Date.UTC` of a date of a year from 1970 on, with a day of the month that may overflow. */
  lemma DateUTCOfDay(c: Civil, shift: int, sm: Schedule)
    requires sm.Valid() && ValidCivil(c) && c.year >= 1970
    ensures DateUTC(c.year, c.month, c.date + shift, sm.sendHour, sm.sendMinute, 0, 0)
         == (DayOfCivil(c) + shift) * MS_PER_DAY + sm.SendTime()
  {
  }

  lemma LengthByDayZero(c: Civil)
    requires ValidCivil(c) && c.year >= 1970
    ensures GetUTCDate(DateUTC(c.year, c.month + 1, 0, 0, 0, 0, 0)) == DaysInMonth(c.year, c.month)
  {
    DayZero(c.year, c.month);
    TimeOfClock(MakeDay(c.year, c.month + 1, 0), 0);
  }

  /** The result is the sending time of the picked day. */
  ghost predicate PicksNextDay(sm: Schedule, from: int)
    requires sm.Valid()
  {
    var j := from + JAKARTA_OFFSET;
    && ComputeNextRunAt(sm, from).Ok?
    && NextRun(sm, from) + JAKARTA_OFFSET
       == NextDay(sm, DayOf(j), TimeInDay(j) >= sm.SendTime()) * MS_PER_DAY + sm.SendTime()
  }

  lemma PicksDailyOrWeekly(sm: Schedule, from: int)
    requires sm.Valid() && from >= 0 && !sm.repeatType.Monthly?
    ensures PicksNextDay(sm, from)
  {
    hide CivilOfDay, DaysInMonth, DayOfCivil, DateUTC, TimeInDay, GetUTCHours, GetUTCMinutes;
    var j := from + JAKARTA_OFFSET;
    var d := DayOf(j);
    var c := CivilOfDay(d);
    PastToday(sm, j);
    EpochYear(d);
    CivilOfDayValid(d);
    DayOfCivilOfDay(d);
    DateUTCOfDay(c, 0, sm);
    DateUTCOfDay(c, 7, sm);
    DateUTCOfDay(c, (sm.TargetDow() - WeekDay(d) + 7) % 7, sm);
  }

  lemma PicksMonthly(sm: Schedule, from: int)
    requires sm.Valid() && from >= 0 && sm.repeatType.Monthly?
    ensures PicksNextDay(sm, from)
  {
    hide CivilOfDay, DaysInMonth, DayOfCivil, MakeDay, DateUTC, TimeInDay, GetUTCHours, GetUTCMinutes;
    hide GetUTCDate, GetUTCMonth, GetUTCFullYear, MonthStart, MonthLength, DayOf, WeekDay;
    var j := from + JAKARTA_OFFSET;
    var d := DayOf(j);
    var c := CivilOfDay(d);
    var start := MonthStart(d) + MonthLength(d);
    var n := CivilOfDay(start);
    DateGetters(j);
    MonthGetters(d);
    MonthGetters(start);
    MonthFollows(d);
    LengthByDayZero(c);
    LengthByDayZero(n);
    DateUTCOfDay(c, Min(sm.TargetDom(), MonthLength(d)) - c.date, sm);
    DateUTCOfDay(n, Min(sm.TargetDom(), MonthLength(start)) - 1, sm);
    PastToday(sm, j);
  }

  lemma DateGetters(t: int)
    requires t >= 0
    ensures Civil(GetUTCFullYear(t), GetUTCMonth(t), GetUTCDate(t)) == CivilOfDay(DayOf(t))
    ensures GetUTCFullYear(t) >= 1970
  {
    EpochYear(DayOf(t));
  }

  lemma MonthGetters(d: int)
    ensures MonthStart(d) == d - CivilOfDay(d).date + 1
    ensures MonthLength(d) == DaysInMonth(CivilOfDay(d).year, CivilOfDay(d).month)
    ensures ValidCivil(CivilOfDay(d)) && DayOfCivil(CivilOfDay(d)) == d
  {
    CivilOfDayValid(d);
    DayOfCivilOfDay(d);
  }

  lemma ComputesNextDay(sm: Schedule, from: int)
    requires sm.Valid() && from >= 0
    ensures PicksNextDay(sm, from)
  {
    hide PicksNextDay;
    if sm.repeatType.Monthly? { PicksMonthly(sm, from); } else { PicksDailyOrWeekly(sm, from); }
  }

  // ---------------------------------------------------------------- main results

  /** The result is the first occurrence strictly after `from`. */
  lemma NextRunIsLeast(sm: Schedule, from: int)
    requires sm.Valid() && from >= 0
    ensures ComputeNextRunAt(sm, from).Ok?
    ensures IsLeastAfter(sm, from, NextRun(sm, from))
  {
    hide MatchesDay, NextDay, ComputeNextRunAt;
    var j := from + JAKARTA_OFFSET;
    var past := TimeInDay(j) >= sm.SendTime();
    var e := NextDay(sm, DayOf(j), past);
    ComputesNextDay(sm, from);
    NextDayIsLeast(sm, DayOf(j), past);
    ClockOfTime(j);
    TimeOfClock(e, sm.SendTime());
    forall t | from < t < NextRun(sm, from) ensures !IsOccurrence(sm, t) {
      ClockOfTime(t + JAKARTA_OFFSET);
    }
  }

  /** The same in the terms of `FallsOn`. */
  lemma NextRunFalls(sm: Schedule, from: int)
    requires from >= 0 && !sm.repeatType.Unknown? && 0 <= sm.sendHour < 24 && 0 <= sm.sendMinute < 60
    requires sm.dayOfWeek.Some? ==> 0 <= sm.dayOfWeek.value <= 6
    requires sm.dayOfMonth.Some? ==> 1 <= sm.dayOfMonth.value <= 31
    ensures var r := ComputeNextRunAt(sm, from);
      r.Ok? && from < r.value && FallsOn(sm, r.value) && forall t | from < t < r.value :: !FallsOn(sm, t)
  {
    NextRunIsLeast(sm, from);
    hide IsOccurrence, ComputeNextRunAt, FallsOn;
    OccurrenceFalls(sm, NextRun(sm, from));
    forall t | from < t < NextRun(sm, from) ensures !FallsOn(sm, t) {
      OccurrenceFalls(sm, t);
    }
  }

  /** At the epoch, a Friday schedule for nine o'clock runs next on Friday, 2 January 1970, at two
      o'clock UTC. */
  lemma FridayAtNine()
    ensures ComputeNextRunAt(Schedule(Weekly, 9, 0, Some(5), None), 0) == Ok(93_600_000)
  {
    var sm := Schedule(Weekly, 9, 0, Some(5), None);
    hide ComputeNextRunAt;
    NextRunFalls(sm, 0);
    assert FallsOn(sm, 93_600_000);
    var run := ComputeNextRunAt(sm, 0).value;
    assert run <= 93_600_000;
    var e := (run + 25_200_000) / 86_400_000;
    assert 0 <= e <= 1 && (e - 8) % 7 == 0;
  }

  lemma LeastAfterUnique(sm: Schedule, from: int, r: int, q: int)
    requires IsLeastAfter(sm, from, r) && IsLeastAfter(sm, from, q)
    ensures r == q
  {
  }

  lemma NextRunMonotone(sm: Schedule, from: int, later: int)
    requires sm.Valid() && 0 <= from <= later
    ensures NextRun(sm, from) <= NextRun(sm, later)
    ensures later < NextRun(sm, from) ==> NextRun(sm, later) == NextRun(sm, from)
  {
    hide IsOccurrence, NextRun;
    NextRunIsLeast(sm, from);
    NextRunIsLeast(sm, later);
  }

  /** The first `n` runs after `from`, each computed from the one before. */
  ghost function Runs(sm: Schedule, from: int, n: nat): seq<int>
    requires sm.Valid()
    decreases n
  {
    if n == 0 then [] else [NextRun(sm, from)] + Runs(sm, NextRun(sm, from), n - 1)
  }

  /** `s` lists the occurrences after `from` in order, up to its last, and skips none. */
  ghost predicate ListsOccurrences(sm: Schedule, from: int, s: seq<int>) {
    && (forall i | 0 <= i < |s| :: from < s[i] && IsOccurrence(sm, s[i]))
    && (forall i, j | 0 <= i < j < |s| :: s[i] < s[j])
    && (forall t | IsOccurrence(sm, t) && |s| > 0 && from < t <= s[|s| - 1] :: t in s)
  }

  lemma ListsCons(sm: Schedule, from: int, r: int, rest: seq<int>)
    requires IsLeastAfter(sm, from, r) && ListsOccurrences(sm, r, rest)
    ensures ListsOccurrences(sm, from, [r] + rest)
  {
    hide IsOccurrence;
    var s := [r] + rest;
    forall t | IsOccurrence(sm, t) && from < t <= s[|s| - 1] ensures t in s {
      if r < t { assert t in rest; } else { assert s[0] == t; }
    }
  }

  lemma ListsNothing(sm: Schedule, from: int)
    ensures ListsOccurrences(sm, from, [])
  {
  }

  /** Iterating lists the occurrences. */
  lemma {:induction false} RunsListOccurrences(sm: Schedule, from: int, n: nat)
    requires sm.Valid() && from >= 0
    ensures |Runs(sm, from, n)| == n && ListsOccurrences(sm, from, Runs(sm, from, n))
    decreases n
  {
    hide IsOccurrence, NextRun, ListsOccurrences;
    assert ListsOccurrences(sm, from, []) by { ListsNothing(sm, from); }
    if n > 0 {
      NextRunIsLeast(sm, from);
      RunsListOccurrences(sm, NextRun(sm, from), n - 1);
      ListsCons(sm, from, NextRun(sm, from), Runs(sm, NextRun(sm, from), n - 1));
    }
  }

  /** Every later occurrence is reached by iterating. */
  lemma {:induction false} EveryOccurrenceRuns(sm: Schedule, from: int, t: int) returns (n: nat)
    requires sm.Valid() && from >= 0 && from < t && IsOccurrence(sm, t)
    ensures |Runs(sm, from, n)| == n > 0 && Runs(sm, from, n)[n - 1] == t
    decreases t - from
  {
    hide IsOccurrence, NextRun;
    NextRunIsLeast(sm, from);
    if NextRun(sm, from) == t {
      n := 1;
    } else {
      n := EveryOccurrenceRuns(sm, NextRun(sm, from), t);
      n := n + 1;
    }
  }

  /** Days from one matching day to the next. */
  lemma DayGap(sm: Schedule, d: int)
    requires sm.Valid() && MatchesDay(sm, d)
    ensures sm.repeatType.Daily? ==> NextDay(sm, d, true) - d == 1
    ensures sm.repeatType.Weekly? ==> NextDay(sm, d, true) - d == 7
    ensures sm.repeatType.Monthly? ==> 28 <= NextDay(sm, d, true) - d <= 31
  {
    hide CivilOfDay, DaysInMonth;
    MonthFacts(d);
    MonthFacts(MonthStart(d) + MonthLength(d));
  }

  /** Successive runs are a day, a week, or 28 to 31 days apart, to the millisecond. */
  lemma RunGap(sm: Schedule, t: int)
    requires sm.Valid() && t >= 0 && IsOccurrence(sm, t)
    ensures var gap := NextRun(sm, t) - t;
      && (sm.repeatType.Daily? ==> gap == MS_PER_DAY)
      && (sm.repeatType.Weekly? ==> gap == 7 * MS_PER_DAY)
      && (sm.repeatType.Monthly? ==> gap % MS_PER_DAY == 0 && 28 <= gap / MS_PER_DAY <= 31)
  {
    hide MatchesDay, NextDay, NextRun, ComputeNextRunAt;
    var j := t + JAKARTA_OFFSET;
    ClockOfTime(j);
    ComputesNextDay(sm, t);
    DayGap(sm, DayOf(j));
    assert NextRun(sm, t) - t == (NextDay(sm, DayOf(j), true) - DayOf(j)) * MS_PER_DAY;
  }

  /** Only an unknown repeat type is an error, which names it. */
  lemma ErrorIffUnknown(sm: Schedule, from: int)
    ensures ComputeNextRunAt(sm, from).Err? <==> sm.repeatType.Unknown?
    ensures sm.repeatType.Unknown? ==> ComputeNextRunAt(sm, from) == Err("Unknown repeatType: " + sm.repeatType.name)
  {
  }
}
