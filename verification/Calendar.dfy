/**
 Calendar arithmetic: the proleptic Gregorian calendar by day count, the United States
 daylight-saving rule (15 U.S.C. 260a) as the program computes it, and the trading date that rolls
 over at 18:00 Eastern time.  Day 0 is 0001-01-01.
 */
module Calendar {
  import opened Prelude

  predicate IsLeap(y: int) { y % 4 == 0 && (y % 100 != 0 || y % 400 == 0) }

  /** Days from 0001-01-01 to the first day of year `y`. */
  function YearStart(y: int): int {
    365 * (y - 1) + (y - 1) / 4 - (y - 1) / 100 + (y - 1) / 400
  }

  function YearLength(y: int): int { if IsLeap(y) then 366 else 365 }

  lemma DivStep(y: int, k: int)
    requires k == 4 || k == 100 || k == 400
    ensures y / k - (y - 1) / k == if y % k == 0 then 1 else 0
  {
  }

  lemma LeapParts(y: int)
    ensures y % 400 == 0 ==> y % 100 == 0
    ensures y % 100 == 0 ==> y % 4 == 0
  {
  }

  lemma NextYear(y: int)
    ensures YearStart(y + 1) == YearStart(y) + YearLength(y)
  {
    DivStep(y, 4);
    DivStep(y, 100);
    DivStep(y, 400);
    LeapParts(y);
    var a, b, c := y / 4 - (y - 1) / 4, y / 100 - (y - 1) / 100, y / 400 - (y - 1) / 400;
    assert a - b + c == if IsLeap(y) then 1 else 0;
  }

  /** Days from the first day of the year to the first day of month `m`; month 13 is the next year. */
  function MonthStart(y: int, m: int): int
    requires 1 <= m <= 13
  {
    [0, 31, 59, 90, 120, 151, 181, 212, 243, 273, 304, 334, 365][m - 1]
    + (if m > 2 && IsLeap(y) then 1 else 0)
  }

  datatype Date = Date(year: int, month: int, day: int)

  predicate ValidDate(d: Date) {
    1 <= d.month <= 12 && 1 <= d.day <= MonthStart(d.year, d.month + 1) - MonthStart(d.year, d.month)
  }

  /** The day count of a date. */
  function DayOf(d: Date): int
    requires 1 <= d.month <= 12
  {
    YearStart(d.year) + MonthStart(d.year, d.month) + d.day - 1
  }

  function YearFrom(n: int, y: int): (r: int)
    requires YearStart(y) <= n
    ensures y <= r && YearStart(r) <= n < YearStart(r + 1)
    decreases n - YearStart(y)
  {
    NextYear(y);
    if n < YearStart(y + 1) then y else YearFrom(n, y + 1)
  }

  /** The year a day lies in. */
  function YearOf(n: nat): (y: int)
    ensures y >= 1 && YearStart(y) <= n < YearStart(y + 1)
  {
    YearFrom(n, 1)
  }

  function MonthFrom(y: int, r: int, m: int): (k: int)
    requires 1 <= m <= 12 && MonthStart(y, m) <= r < MonthStart(y, 13)
    ensures m <= k <= 12 && MonthStart(y, k) <= r < MonthStart(y, k + 1)
    decreases 12 - m
  {
    if m == 12 || r < MonthStart(y, m + 1) then m else MonthFrom(y, r, m + 1)
  }

  /** The date of a day: what `gmtime` fills in. */
  function DateOf(n: nat): (d: Date)
    ensures ValidDate(d) && DayOf(d) == n && d.year >= 1
  {
    var y := YearOf(n);
    NextYear(y);
    var r := n - YearStart(y);
    var m := MonthFrom(y, r, 1);
    Date(y, m, r - MonthStart(y, m) + 1)
  }

  /** Sunday is 0; 0001-01-01 was a Monday. */
  function Weekday(n: int): int { (n + 1) % 7 }

  // ---------------------------------------------------------------- the weekday formula

  /** The formula's table, and the days of a common year before a month. */
  function Table(month: int): (t: int)
    requires 1 <= month <= 12
    ensures 0 <= t < 7
  {
    [0, 3, 2, 5, 0, 3, 5, 1, 4, 6, 2, 4][month - 1]
  }

  function DaysBefore(month: int): int
    requires 1 <= month <= 12
  {
    [0, 31, 59, 90, 120, 151, 181, 212, 243, 273, 304, 334][month - 1]
  }

  /** Sakamoto's formula for the first of the month, with C++ integer division and remainder. */
  function FirstWeekday(year: int, month: int): int
    requires 1 <= month <= 12
  {
    var y := if month < 3 then year - 1 else year;
    var t := Table(month);
    TruncMod(y + TruncDiv(y, 4) - TruncDiv(y, 100) + TruncDiv(y, 400) + t + 1, 7)
  }

  lemma ModShift(a: int, b: int)
    ensures (a + 7 * b) % 7 == a % 7
  {
  }

  /** The days by which a month's first day is ahead of the formula's table are a multiple of seven. */
  lemma TableFits(month: int)
    requires 1 <= month <= 12
    ensures var start := DaysBefore(month);
            var t := Table(month);
            (if month < 3 then start - t else start - 365 - t) % 7 == 0
  {
  }

  lemma MonthFirst(year: int, month: int)
    requires 1 <= month <= 12
    ensures var y := if month < 3 then year - 1 else year;
            var start := DaysBefore(month);
            DayOf(Date(year, month, 1)) ==
            YearStart(y + 1) + (if month < 3 then start else start - 365)
  {
    NextYear(year);
  }

  /** The year the formula works with, and the sum it takes the remainder of. */
  function FormulaYear(year: int, month: int): int { if month < 3 then year - 1 else year }

  function FormulaSum(year: int, month: int): int
    requires 1 <= month <= 12
  {
    var y := FormulaYear(year, month);
    y + TruncDiv(y, 4) - TruncDiv(y, 100) + TruncDiv(y, 400)
    + Table(month) + 1
  }

  /**
   For every year and month the formula is the weekday of the day count exactly when the year it works with is
   not negative, or is a leap year whose truncated sum is not negative or a multiple of seven.
   */
  lemma FormulaIsWeekdayIff(year: int, month: int)
    requires 1 <= month <= 12
    ensures FirstWeekday(year, month) == Weekday(DayOf(Date(year, month, 1))) <==>
            var y, z := FormulaYear(year, month), FormulaSum(year, month);
            y >= 0 || (IsLeap(y) && (z >= 0 || z % 7 == 0))
  {
    var y := FormulaYear(year, month);
    var t := Table(month);
    var start := DaysBefore(month);
    MonthFirst(year, month);
    TableFits(month);
    WeekdaySum(y, t, if month < 3 then start else start - 365);
  }

  lemma FormulaIsWeekday(year: int, month: int)
    requires year >= 1 && 1 <= month <= 12
    ensures FirstWeekday(year, month) == Weekday(DayOf(Date(year, month, 1)))
  {
    FormulaIsWeekdayIff(year, month);
  }

  /** Truncation against the floor: one more, unless the division is exact. */
  lemma TruncNegative(y: int, k: int)
    requires y < 0 && (k == 4 || k == 100 || k == 400)
    ensures TruncDiv(y, k) == y / k + (if y % k == 0 then 0 else 1)
  {
  }

  /** The truncated sum exceeds the floored one by one before the year 0, except in leap years. */
  lemma TruncatedLeaps(y: int)
    ensures TruncDiv(y, 4) - TruncDiv(y, 100) + TruncDiv(y, 400) ==
            y / 4 - y / 100 + y / 400 + (if y >= 0 || IsLeap(y) then 0 else 1)
  {
    if y < 0 {
      TruncNegative(y, 4);
      TruncNegative(y, 100);
      TruncNegative(y, 400);
      LeapParts(y);
    }
  }

  /** When a truncating remainder of `z` is the true remainder of `z - d`. */
  lemma RemainderIff(z: int, d: int)
    requires d == 0 || d == 1
    ensures TruncMod(z, 7) == (z - d) % 7 <==> d == 0 && (z >= 0 || z % 7 == 0)
  {
    if z < 0 {
      assert TruncMod(z, 7) == -((-z) % 7);
    }
  }

  lemma LeapsNotNegative(y: int)
    requires y >= 0
    ensures y / 4 - y / 100 + y / 400 >= 0
  {
  }

  /** The formula against the day count, for a month that starts `offset` days after a year does. */
  lemma WeekdaySum(y: int, t: int, offset: int)
    requires 0 <= t < 7 && (offset - t) % 7 == 0
    ensures var z := y + TruncDiv(y, 4) - TruncDiv(y, 100) + TruncDiv(y, 400) + t + 1;
            TruncMod(z, 7) == Weekday(YearStart(y + 1) + offset) <==>
            y >= 0 || (IsLeap(y) && (z >= 0 || z % 7 == 0))
  {
    var leaps := y / 4 - y / 100 + y / 400;
    var d := if y >= 0 || IsLeap(y) then 0 else 1;
    var z := y + leaps + d + t + 1;
    TruncatedLeaps(y);
    var k := (offset - t) / 7;
    assert YearStart(y + 1) + offset + 1 == (z - d) + 7 * (52 * y + k);
    ModShift(z - d, 52 * y + k);
    RemainderIff(z, d);
    if y >= 0 {
      LeapsNotNegative(y);
    }
  }

  // ---------------------------------------------------------------- daylight saving time

  /** The offset of Eastern time from UTC in hours, from the fields of a broken-down UTC time. */
  function EasternOffset(d: Date, hour: int): int
    requires 1 <= d.month <= 12
  {
    if d.month < 3 || d.month > 11 then 5
    else if d.month > 3 && d.month < 11 then 4
    else if d.month == 3 then
      var fd := FirstWeekday(d.year, 3);
      var firstSun := if fd == 0 then 1 else 8 - fd;
      var secondSun := firstSun + 7;
      if d.day < secondSun then 5
      else if d.day > secondSun then 4
      else if hour >= 7 then 4 else 5
    else
      var fd := FirstWeekday(d.year, 11);
      var firstSun := if fd == 0 then 1 else 8 - fd;
      if d.day < firstSun then 4
      else if d.day > firstSun then 5
      else if hour < 6 then 4 else 5
  }

  /** The `k`-th Sunday at or after the day `first`. */
  ghost predicate IsNthSunday(n: int, first: int, k: int) {
    Weekday(n) == 0 && first + 7 * (k - 1) <= n < first + 7 * k
  }

  lemma NthSundayUnique(n: int, n': int, first: int, k: int)
    requires IsNthSunday(n, first, k) && IsNthSunday(n', first, k)
    ensures n == n'
  {
    assert (n - n') % 7 == 0;
  }

  /** Days from a day with weekday `w` to the next Sunday. */
  function ToSunday(w: int): int { if w == 0 then 0 else 7 - w }

  lemma FirstSunday(first: int)
    ensures IsNthSunday(first + ToSunday(Weekday(first)), first, 1)
    ensures IsNthSunday(first + ToSunday(Weekday(first)) + 7, first, 2)
  {
    var w := Weekday(first);
    var q := (first + 1) / 7;
    assert first + 1 == 7 * q + w;
    if w == 0 {
      ModShift(0, q);
      ModShift(0, q + 1);
    } else {
      ModShift(0, q + 1);
      ModShift(0, q + 2);
    }
  }

  /** The Sunday in March on which the clocks go forward, and the one in November on which they go back. */
  function SpringDay(y: int): int {
    var first := DayOf(Date(y, 3, 1));
    first + ToSunday(Weekday(first)) + 7
  }

  function FallDay(y: int): int {
    var first := DayOf(Date(y, 11, 1));
    first + ToSunday(Weekday(first))
  }

  /** The switches are the second Sunday of March and the first Sunday of November. */
  lemma SwitchDays(y: int)
    ensures IsNthSunday(SpringDay(y), DayOf(Date(y, 3, 1)), 2)
    ensures IsNthSunday(FallDay(y), DayOf(Date(y, 11, 1)), 1)
  {
    FirstSunday(DayOf(Date(y, 3, 1)));
    FirstSunday(DayOf(Date(y, 11, 1)));
  }

  const EPOCH: int := 719162
  const DAY: int := 86400
  const HOUR: int := 3600

  /** The Unix time of second `s` of day `n`. */
  function Instant(n: int, s: int): int { DAY * (n - EPOCH) + s }

  /** Where a day lies relative to the two switching months. */
  lemma MonthPosition(d: Date)
    requires ValidDate(d)
    ensures var n, march, november := DayOf(d), DayOf(Date(d.year, 3, 1)), DayOf(Date(d.year, 11, 1));
            && (d.month < 3 ==> n < march)
            && (d.month == 3 ==> n == march + d.day - 1)
            && (3 < d.month < 11 ==> march + 31 <= n < november)
            && (d.month == 11 ==> n == november + d.day - 1)
            && (d.month > 11 ==> november + 30 <= n)
            && march + 31 <= november && 1 <= d.day <= 31 && (d.month == 11 ==> d.day <= 30)
  {
  }

  /** Daylight time is in force at second `s` of day `n`, with `spring` and `fall` the switching days. */
  predicate Daylight(n: int, s: int, spring: int, fall: int) {
    && (spring < n || (spring == n && s >= 7 * HOUR))
    && (n < fall || (n == fall && s < 6 * HOUR))
  }

  /** The offset as a comparison of days. */
  lemma OffsetByDay(d: Date, s: int)
    requires ValidDate(d) && d.year >= 1 && 0 <= s < DAY
    ensures EasternOffset(d, s / HOUR) ==
            if Daylight(DayOf(d), s, SpringDay(d.year), FallDay(d.year)) then 4 else 5
  {
    MonthPosition(d);
    FormulaIsWeekday(d.year, 3);
    FormulaIsWeekday(d.year, 11);
    OffsetCases(d, s, DayOf(Date(d.year, 3, 1)), DayOf(Date(d.year, 11, 1)));
  }

  lemma OffsetCases(d: Date, s: int, march: int, november: int)
    requires 1 <= d.month <= 12 && 0 <= s < DAY
    requires FirstWeekday(d.year, 3) == Weekday(march) && FirstWeekday(d.year, 11) == Weekday(november)
    requires d.month < 3 ==> DayOf(d) < march
    requires d.month == 3 ==> DayOf(d) == march + d.day - 1
    requires 3 < d.month < 11 ==> march + 31 <= DayOf(d) < november
    requires d.month == 11 ==> DayOf(d) == november + d.day - 1
    requires d.month > 11 ==> november + 30 <= DayOf(d)
    requires march + 31 <= november && 1 <= d.day <= 31
    ensures EasternOffset(d, s / HOUR) ==
            if Daylight(DayOf(d), s, march + ToSunday(Weekday(march)) + 7, november + ToSunday(Weekday(november)))
            then 4 else 5
  {
    var w3, w11 := Weekday(march), Weekday(november);
    assert 0 <= w3 < 7 && 0 <= w11 < 7;
    assert s / HOUR >= 7 <==> s >= 7 * HOUR;
    assert s / HOUR < 6 <==> s < 6 * HOUR;
  }

  // ---------------------------------------------------------------- Unix time

  function DayNumber(t: int): int { t / DAY + EPOCH }

  function SecondOfDay(t: int): int { t % DAY }

  /** The first second of the year 1. */
  const FIRST: int := -DAY * EPOCH

  lemma InstantParts(t: int)
    ensures t == Instant(DayNumber(t), SecondOfDay(t)) && 0 <= SecondOfDay(t) < DAY
    ensures t >= FIRST <==> DayNumber(t) >= 0
  {
  }

  lemma PartsOfInstant(n: int, s: int)
    requires 0 <= s < DAY
    ensures DayNumber(Instant(n, s)) == n && SecondOfDay(Instant(n, s)) == s
  {
  }

  /** The offset at a Unix time: broken down in UTC, then by the rule. */
  function OffsetAt(t: int): int
    requires t >= FIRST
  {
    InstantParts(t);
    EasternOffset(DateOf(DayNumber(t)), SecondOfDay(t) / HOUR)
  }

  /** The switching instants: 07:00 UTC on the spring day and 06:00 UTC on the fall day. */
  function SpringInstant(y: int): int { Instant(SpringDay(y), 7 * HOUR) }

  function FallInstant(y: int): int { Instant(FallDay(y), 6 * HOUR) }

  lemma InstantOrder(n: int, s: int, n': int, s': int)
    requires 0 <= s < DAY && 0 <= s' < DAY
    ensures Instant(n, s) < Instant(n', s') <==> n < n' || (n == n' && s < s')
  {
    if n < n' {
      assert DAY * (n' - n) >= DAY;
    } else if n > n' {
      assert DAY * (n - n') >= DAY;
    }
  }

  lemma OffsetBySwitches(t: int)
    requires t >= FIRST
    ensures DayNumber(t) >= 0
    ensures var y := DateOf(DayNumber(t)).year;
            OffsetAt(t) == if SpringInstant(y) <= t < FallInstant(y) then 4 else 5
  {
    InstantParts(t);
    var n, s := DayNumber(t), SecondOfDay(t);
    var y := DateOf(n).year;
    OffsetByDay(DateOf(n), s);
    InstantOrder(n, s, SpringDay(y), 7 * HOUR);
    InstantOrder(n, s, FallDay(y), 6 * HOUR);
  }

  // ---------------------------------------------------------------- Unix time and civil dates

  lemma {:induction false} MonthsInOrder(y: int, m: int, k: int)
    requires 1 <= m < k <= 13
    ensures MonthStart(y, m + 1) <= MonthStart(y, k)
    decreases k - m
  {
    if m + 1 < k {
      MonthsInOrder(y, m + 1, k);
    }
  }

  lemma InsideYear(d: Date)
    requires ValidDate(d)
    ensures YearStart(d.year) <= DayOf(d) < YearStart(d.year + 1)
  {
    NextYear(d.year);
    MonthsInOrder(d.year, d.month, 13);
  }

  /** A valid date is the date of its day. */
  lemma DateOfDay(d: Date)
    requires ValidDate(d) && d.year >= 1
    ensures DayOf(d) >= 0 && DateOf(DayOf(d)) == d
  {
    InsideYear(d);
    YearsInOrder(0, d.year);
    var e := DateOf(DayOf(d));
    SameYear(d, e);
    SameMonth(d, e);
  }

  lemma SameYear(d: Date, e: Date)
    requires ValidDate(d) && ValidDate(e) && DayOf(d) == DayOf(e)
    ensures d.year == e.year
  {
    InsideYear(d);
    InsideYear(e);
    YearsInOrder(d.year, e.year);
    YearsInOrder(e.year, d.year);
  }

  lemma SameMonth(d: Date, e: Date)
    requires ValidDate(d) && ValidDate(e) && DayOf(d) == DayOf(e) && d.year == e.year
    ensures d == e
  {
    var y := d.year;
    assert MonthStart(y, d.month) + d.day == MonthStart(y, e.month) + e.day;
    if d.month < e.month {
      MonthsInOrder(y, d.month, e.month);
    } else if e.month < d.month {
      MonthsInOrder(y, e.month, d.month);
    }
  }

  /** A year has twelve months of 31, 28 or 29, 31, 30, 31, 30, 31, 31, 30, 31, 30 and 31 days. */
  lemma MonthLengths(y: int, m: int)
    requires 1 <= m <= 12
    ensures var length := [31, if y % 4 == 0 && (y % 100 != 0 || y % 400 == 0) then 29 else 28, 31, 30, 31, 30,
                           31, 31, 30, 31, 30, 31][m - 1];
            (if m == 12 then DayOf(Date(y + 1, 1, 1)) else DayOf(Date(y, m + 1, 1))) - DayOf(Date(y, m, 1)) == length
  {
    NextYear(y);
  }

  /** The Unix time of a second of a civil day, counted from 1970-01-01. */
  function UnixTime(day: int, second: int): int { 86400 * (day - DayOf(Date(1970, 1, 1))) + second }

  /** The civil day at a Unix time. */
  function CivilDay(t: int): int { DayOf(Date(1970, 1, 1)) + t / 86400 }

  lemma UnixDays(t: int)
    ensures CivilDay(t) == DayNumber(t) && (t >= -62135596800 <==> CivilDay(t) >= 0) && FIRST == -62135596800
  {
  }

  /** The date at Unix time zero is the first of January 1970, and each day has 86400 seconds. */
  lemma CivilDates(t: int)
    requires t >= -62135596800
    ensures DayNumber(t) >= 0
    ensures DayOf(DateOf(DayNumber(t))) == DayOf(Date(1970, 1, 1)) + t / 86400
    ensures 0 <= t < 86400 ==> DateOf(DayNumber(t)) == Date(1970, 1, 1)
  {
    UnixDays(t);
    if 0 <= t < 86400 {
      FirstDay(t);
    }
  }

  lemma FirstDay(t: int)
    requires 0 <= t < 86400
    ensures DayNumber(t) >= 0 && DateOf(DayNumber(t)) == Date(1970, 1, 1)
  {
    UnixDays(t);
    DayOfFirst(Date(1970, 1, 1), t);
  }

  lemma DayOfFirst(d: Date, t: int)
    requires ValidDate(d) && d.year >= 1 && DayNumber(t) == DayOf(d)
    ensures DayNumber(t) >= 0 && DateOf(DayNumber(t)) == d
  {
    DateOfDay(d);
  }

  /** The second Sunday of March and the first Sunday of November of a year. */
  ghost predicate AreSwitchDays(y: int, spring: int, fall: int) {
    IsNthSunday(spring, DayOf(Date(y, 3, 1)), 2) && IsNthSunday(fall, DayOf(Date(y, 11, 1)), 1)
  }

  lemma SwitchDaysAre(y: int, spring: int, fall: int)
    requires AreSwitchDays(y, spring, fall)
    ensures spring == SpringDay(y) && fall == FallDay(y)
  {
    SwitchDays(y);
    NthSundayUnique(spring, SpringDay(y), DayOf(Date(y, 3, 1)), 2);
    NthSundayUnique(fall, FallDay(y), DayOf(Date(y, 11, 1)), 1);
  }

  /**
   At any Unix time from the year 1 on the offset is four hours exactly from 07:00 UTC on the second Sunday of
   March to 06:00 UTC on the first Sunday of November of the civil year; there is one of each.
   */
  lemma OffsetIsDaylightRule(t: int)
    requires t >= -62135596800
    ensures CivilDay(t) >= 0
    ensures var y := DateOf(CivilDay(t)).year;
            && AreSwitchDays(y, SpringDay(y), FallDay(y))
            && forall spring, fall :: AreSwitchDays(y, spring, fall) ==>
                 OffsetAt(t) == if UnixTime(spring, 25200) <= t < UnixTime(fall, 21600) then 4 else 5
  {
    UnixDays(t);
    OffsetBySwitches(t);
    var y := DateOf(DayNumber(t)).year;
    SwitchDays(y);
    forall spring, fall | AreSwitchDays(y, spring, fall)
      ensures spring == SpringDay(y) && fall == FallDay(y)
    {
      SwitchDaysAre(y, spring, fall);
    }
  }

  // ---------------------------------------------------------------- the trading date

  /** The day after shifting by `off` hours, and the next one from 18:00 on. */
  function ShiftedDay(t: int, off: int): int {
    var et := t - off * HOUR;
    DayNumber(if SecondOfDay(et) / HOUR >= 18 then et + 24 * HOUR else et)
  }

  /** The trading date of a Unix time, as a day number. */
  function TradingDay(t: int): int
    requires t >= FIRST
  {
    ShiftedDay(t, OffsetAt(t))
  }

  /** The offset in force on the evening of day `n`, from 07:00 UTC on. */
  function EveningOffset(n: nat): int {
    var y := DateOf(n).year;
    if SpringDay(y) <= n < FallDay(y) then 4 else 5
  }

  /** The Unix time at which day `n` ends as a trading day and the next one starts. */
  function RollOver(n: nat): int { Instant(n, (18 + EveningOffset(n)) * HOUR) }

  lemma EveningSettled(n: nat, s: int)
    requires 0 <= s < DAY
    ensures var off := EasternOffset(DateOf(n), s / HOUR);
            (off == 4 || off == 5) && (s >= 7 * HOUR ==> off == EveningOffset(n))
  {
    OffsetByDay(DateOf(n), s);
  }

  lemma EveningShift(n: int, s: int, off: int, evening: int)
    requires 0 <= s < DAY && (off == 4 || off == 5) && (evening == 4 || evening == 5)
    requires s >= 7 * HOUR ==> off == evening
    ensures ShiftedDay(Instant(n, s), off) == if s < (18 + evening) * HOUR then n else n + 1
  {
    var e := s - off * HOUR;
    var et := Instant(n, e);
    assert Instant(n, s) - off * HOUR == et;
    if e >= 0 {
      PartsOfInstant(n, e);
      PartsOfInstant(n + 1, e);
      assert et + 24 * HOUR == Instant(n + 1, e);
    } else {
      PartsOfInstant(n - 1, e + DAY);
      PartsOfInstant(n, e + DAY);
      assert et == Instant(n - 1, e + DAY) && et + 24 * HOUR == Instant(n, e + DAY);
      assert (e + DAY) / HOUR >= 18;
    }
  }

  /** The trading day is the UTC day until the roll-over and the next day from then on. */
  lemma TradingDayByParts(t: int)
    requires t >= FIRST
    ensures DayNumber(t) >= 0
    ensures TradingDay(t) == if t < RollOver(DayNumber(t)) then DayNumber(t) else DayNumber(t) + 1
  {
    InstantParts(t);
    var n, s := DayNumber(t), SecondOfDay(t);
    EveningSettled(n, s);
    EveningShift(n, s, OffsetAt(t), EveningOffset(n));
    InstantOrder(n, s, n, (18 + EveningOffset(n)) * HOUR);
  }

  /** A roll-over lies inside its own UTC day, so roll-overs are in order. */
  lemma RollOverOrder(n: nat, t: int)
    requires t >= FIRST
    ensures DayNumber(t) < n ==> t < RollOver(n)
    ensures DayNumber(t) > n ==> t > RollOver(n)
  {
    InstantParts(t);
    InstantOrder(DayNumber(t), SecondOfDay(t), n, (18 + EveningOffset(n)) * HOUR);
    InstantOrder(n, (18 + EveningOffset(n)) * HOUR, DayNumber(t), SecondOfDay(t));
  }

  lemma BetweenDays(t: int, d: nat)
    requires t >= FIRST && d >= 1
    ensures TradingDay(t) == d <==> RollOver(d - 1) <= t < RollOver(d)
  {
    TradingDayByParts(t);
    RollOverOrder(d - 1, t);
    RollOverOrder(d, t);
    BetweenRollOvers(TradingDay(t), t, DayNumber(t), RollOver(DayNumber(t)), d, RollOver(d - 1), RollOver(d));
  }

  /** `t` is 18:00 Eastern time of day `n`: 22:00 UTC from the spring switch to the fall switch, else 23:00. */
  ghost predicate IsRollOver(n: nat, t: int) {
    forall spring, fall :: AreSwitchDays(DateOf(n).year, spring, fall) ==>
      t == UnixTime(n, if spring <= n < fall then 79200 else 82800)
  }

  lemma RollOverIs(n: nat)
    ensures IsRollOver(n, RollOver(n))
  {
    forall spring, fall | AreSwitchDays(DateOf(n).year, spring, fall)
      ensures RollOver(n) == UnixTime(n, if spring <= n < fall then 79200 else 82800)
    {
      SwitchDaysAre(DateOf(n).year, spring, fall);
    }
  }

  /** Every trading day is the contiguous interval between two 18:00 Eastern roll-overs. */
  lemma TradingDayInterval(t: int, d: nat)
    requires t >= -62135596800 && d >= 1
    ensures IsRollOver(d - 1, RollOver(d - 1)) && IsRollOver(d, RollOver(d))
    ensures TradingDay(t) == d <==> RollOver(d - 1) <= t < RollOver(d)
  {
    UnixDays(t);
    BetweenDays(t, d);
    RollOverIs(d - 1);
    RollOverIs(d);
  }

  /** The trading day is the civil day on the Eastern clock, or the next from 18:00 on. */
  lemma TradingDayByEasternClock(t: int)
    requires t >= -62135596800
    ensures var eastern := t - 3600 * OffsetAt(t);
            TradingDay(t) == CivilDay(eastern) + (if eastern % 86400 >= 64800 then 1 else 0)
  {
    UnixDays(t);
    ShiftedDayIs(t, OffsetAt(t));
  }

  lemma ShiftedDayIs(t: int, off: int)
    ensures var eastern := t - 3600 * off;
            ShiftedDay(t, off) == CivilDay(eastern) + (if eastern % 86400 >= 64800 then 1 else 0)
  {
    var eastern := t - 3600 * off;
    UnixDays(eastern);
    UnixDays(eastern + 86400);
    DayAfter(eastern);
  }

  lemma DayAfter(e: int)
    ensures (e + 86400) / 86400 == e / 86400 + 1
    ensures e % 86400 / 3600 >= 18 <==> e % 86400 >= 64800
  {
  }

  lemma BetweenRollOvers(day: int, t: int, n: int, here: int, d: int, from: int, to: int)
    requires day == if t < here then n else n + 1
    requires n < d - 1 ==> t < from
    requires n > d - 1 ==> t > from
    requires n < d ==> t < to
    requires n > d ==> t > to
    requires (n == d - 1 ==> here == from) && (n == d ==> here == to)
    ensures day == d <==> from <= t < to
  {
  }

  /** The trading date never goes back. */
  lemma TradingDayMonotone(t: int, t': int)
    requires -62135596800 <= t <= t'
    ensures TradingDay(t) <= TradingDay(t')
  {
    TradingDayByParts(t);
    TradingDayByParts(t');
    var n, n' := DayNumber(t), DayNumber(t');
    DayNumberMonotone(t, t');
    StepMonotone(n, n', t, t', RollOver(n), RollOver(n'));
  }

  lemma DayNumberMonotone(t: int, t': int)
    requires t <= t'
    ensures DayNumber(t) <= DayNumber(t')
  {
  }

  lemma StepMonotone(n: int, n': int, t: int, t': int, r: int, r': int)
    requires n <= n' && t <= t' && (n == n' ==> r == r')
    ensures (if t < r then n else n + 1) <= (if t' < r' then n' else n' + 1)
  {
  }

  /** Neighbouring days are in the same year or on its two sides. */
  lemma NextDayYear(n: nat)
    ensures var y, y' := DateOf(n).year, DateOf(n + 1).year;
            && (y' == y || (y' == y + 1 && n + 1 == YearStart(y')))
            && YearStart(y) <= n < YearStart(y + 1)
  {
    DateInYear(n);
    DateInYear(n + 1);
    var y, y' := DateOf(n).year, DateOf(n + 1).year;
    YearsInOrder(y, y');
    YearsInOrder(y', y);
    YearsInOrder(y + 1, y');
  }

  lemma DateInYear(n: nat)
    ensures YearStart(DateOf(n).year) <= n < YearStart(DateOf(n).year + 1)
  {
  }

  lemma {:induction false} YearsInOrder(y: int, y': int)
    ensures y < y' ==> YearStart(y + 1) <= YearStart(y')
    decreases if y < y' then y' - y else 0
  {
    if y + 1 < y' {
      YearsInOrder(y + 1, y');
      NextYear(y + 1);
    }
  }

  /** Both switches lie strictly inside their year, the spring one first. */
  lemma SwitchesInside(y: int)
    ensures YearStart(y) + 7 < SpringDay(y) && SpringDay(y) < FallDay(y) < YearStart(y + 1) - 7
  {
    NextYear(y);
    assert 0 <= Weekday(DayOf(Date(y, 3, 1))) < 7 && 0 <= Weekday(DayOf(Date(y, 11, 1))) < 7;
  }

  /**
   A trading day has 23 hours exactly when it is the second Sunday of March, 25 hours exactly when it is
   the first Sunday of November, and 24 hours otherwise.
   */
  lemma TradingDayLength(d: nat)
    requires d >= 1
    ensures IsRollOver(d - 1, RollOver(d - 1)) && IsRollOver(d, RollOver(d))
    ensures forall spring, fall :: AreSwitchDays(DateOf(d).year, spring, fall) ==>
              RollOver(d) - RollOver(d - 1) == if d == spring then 82800 else if d == fall then 90000 else 86400
  {
    RollOverIs(d - 1);
    RollOverIs(d);
    forall spring, fall | AreSwitchDays(DateOf(d).year, spring, fall)
      ensures RollOver(d) - RollOver(d - 1) == if d == spring then 82800 else if d == fall then 90000 else 86400
    {
      LengthBetween(d, spring, fall);
    }
  }

  lemma LengthBetween(d: nat, spring: int, fall: int)
    requires d >= 1 && AreSwitchDays(DateOf(d).year, spring, fall)
    ensures RollOver(d) - RollOver(d - 1) == if d == spring then 82800 else if d == fall then 90000 else 86400
  {
    SwitchDaysAre(DateOf(d).year, spring, fall);
    DayLength(d);
  }

  lemma DayLength(d: nat)
    requires d >= 1
    ensures var y := DateOf(d).year;
            RollOver(d) - RollOver(d - 1) ==
            (if d == SpringDay(y) then 23 else if d == FallDay(y) then 25 else 24) * HOUR
  {
    var y, before := DateOf(d).year, DateOf(d - 1).year;
    YearSides(d);
    SwitchesInside(y);
    var e, e' := EveningOffset(d - 1), EveningOffset(d);
    EveningDifference(d, e, e');
    LengthCases(d, y == before, SpringDay(before), FallDay(before), SpringDay(y), FallDay(y), e, e');
  }

  /** A day whose eve lies in another year is past that year's switches and before its own. */
  lemma YearSides(d: nat)
    requires d >= 1
    ensures var y, before := DateOf(d).year, DateOf(d - 1).year;
            y == before || (d < SpringDay(y) && FallDay(before) < d)
  {
    NextDayYear(d - 1);
    SwitchesInside(DateOf(d).year);
    SwitchesInside(DateOf(d - 1).year);
  }

  lemma LengthCases(d: int, sameYear: bool, spring: int, fall: int, spring': int, fall': int, e: int, e': int)
    requires e == if spring <= d - 1 < fall then 4 else 5
    requires e' == if spring' <= d < fall' then 4 else 5
    requires spring' < fall'
    requires if sameYear then spring == spring' && fall == fall' else d < spring' && fall < d
    ensures e' - e == if d == spring' then -1 else if d == fall' then 1 else 0
  {
  }

  lemma EveningDifference(d: int, e: int, e': int)
    ensures Instant(d, (18 + e') * HOUR) - Instant(d - 1, (18 + e) * HOUR) == (24 + e' - e) * HOUR
  {
  }

  /** Distinct trading days have distinct dates: the date names the day. */
  lemma DateNamesDay(n: nat, n': nat)
    ensures DateOf(n) == DateOf(n') <==> n == n'
  {
  }

  // ---------------------------------------------------------------- weeks

  /** The week of a day counted from 1970-01-01, Monday first, with truncating division. */
  function WeekKey(unixDay: int): int {
    var d := unixDay - 4;
    if d >= 0 then TruncDiv(d, 7) else -TruncDiv(-d + 6, 7)
  }

  /** The Monday on or before a day. */
  function MondayOf(n: int): int { n - (Weekday(n) + 6) % 7 }

  lemma WeekKeyMonday(unixDay: int)
    ensures Weekday(MondayOf(unixDay + EPOCH)) == 1
    ensures MondayOf(unixDay + EPOCH) == 7 * WeekKey(unixDay) + 4 + EPOCH
  {
    var d := unixDay - 4;
    var q := WeekKey(unixDay);
    assert 7 * q <= d < 7 * q + 7;
    var r := d - 7 * q;
    assert unixDay + EPOCH + 1 == (r + 1) + 7 * (q + 102738);
    ModShift(r + 1, q + 102738);
    ModShift(1, q + 102738);
    assert Weekday(unixDay + EPOCH) == (r + 1) % 7;
    assert ((r + 1) % 7 + 6) % 7 == r;
  }

  /** Two days have the same key exactly when they lie in the same Monday-to-Sunday week. */
  lemma WeekKeyIsWeek(a: int, b: int)
    ensures var epoch := DayOf(Date(1970, 1, 1));
            && Weekday(MondayOf(epoch + a)) == 1 && MondayOf(epoch + a) <= epoch + a < MondayOf(epoch + a) + 7
            && (WeekKey(a) == WeekKey(b) <==> MondayOf(epoch + a) == MondayOf(epoch + b))
    ensures a <= b ==> WeekKey(a) <= WeekKey(b)
  {
    WeekKeyMonday(a);
    WeekKeyMonday(b);
    if a <= b {
      assert 7 * WeekKey(a) <= a - 4 && b - 4 < 7 * WeekKey(b) + 7;
    }
  }
}
