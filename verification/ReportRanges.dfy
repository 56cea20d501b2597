/** The standard date ranges of the reports. */
module ReportRanges {
  import opened Wrappers
  import opened Calendar

  datatype RangeId =
    | TODAY | THIS_WEEK | THIS_MONTH | THIS_QUARTER | THIS_HALF_YEAR | THIS_YEAR
    | TOMORROW | WEEK_TO_END | MONTH_TO_END | QUARTER_TO_END | HALF_YEAR_TO_END | YEAR_TO_END
    | NEXT_WEEK | NEXT_MONTH | NEXT_QUARTER | NEXT_HALF_YEAR | NEXT_YEAR
    | YESTERDAY | LAST_WEEK | LAST_MONTH | LAST_QUARTER | LAST_HALF_YEAR | LAST_YEAR
    | NEXT_ONE_WEEK | NEXT_ONE_MONTH | NEXT_3_MONTHS | NEXT_6_MONTHS | NEXT_ONE_YEAR
    | LAST_ONE_WEEK | LAST_ONE_MONTH | LAST_3_MONTHS | LAST_6_MONTHS | LAST_ONE_YEAR
    | CUSTOM

  datatype DateRange = DateRange(from: Time, to: Time)

  // ---- bounds of the calendar units -------------------------------------

  /** Weeks start on Monday: Sunday counts as the seventh day. */
  function StartOfWeek(d: Time): Time {
    var day := if WeekDay(d) == 0 then 7 else WeekDay(d);
    AddDays(StartOfDay(d), -(day - 1))
  }

  function EndOfWeek(d: Time): Time { EndOfDay(AddDays(StartOfWeek(d), 6)) }

  function StartOfMonth(d: Time): Time { DateConstructor(FullYear(d), Month(d), 1) }

  function EndOfMonth(d: Time): Time { EndOfDay(DateConstructor(FullYear(d), Month(d) + 1, 0)) }

  function StartOfQuarter(d: Time): Time { DateConstructor(FullYear(d), Month(d) / 3 * 3, 1) }

  function EndOfQuarter(d: Time): Time { EndOfDay(DateConstructor(FullYear(d), Month(d) / 3 * 3 + 3, 0)) }

  function StartOfHalfYear(d: Time): Time { DateConstructor(FullYear(d), if Month(d) < 6 then 0 else 6, 1) }

  function EndOfHalfYear(d: Time): Time
  {
    EndOfDay(DateConstructor(FullYear(d), (if Month(d) < 6 then 5 else 11) + 1, 0))
  }

  function StartOfYear(d: Time): Time { DateConstructor(FullYear(d), 0, 1) }

  function EndOfYear(d: Time): Time { EndOfDay(DateConstructor(FullYear(d), 11, 31)) }

  /** The switch over the ranges relative to today. */
  function RelativeRange(id: RangeId, today: Time): DateRange
    requires id != CUSTOM
  {
    match id
    case TODAY => DateRange(today, EndOfDay(today))
    case THIS_WEEK => DateRange(StartOfWeek(today), EndOfWeek(today))
    case THIS_MONTH => DateRange(StartOfMonth(today), EndOfMonth(today))
    case THIS_QUARTER => DateRange(StartOfQuarter(today), EndOfQuarter(today))
    case THIS_HALF_YEAR => DateRange(StartOfHalfYear(today), EndOfHalfYear(today))
    case THIS_YEAR => DateRange(StartOfYear(today), EndOfYear(today))
    case TOMORROW => var t := AddDays(today, 1); DateRange(t, EndOfDay(t))
    case WEEK_TO_END => DateRange(today, EndOfWeek(today))
    case MONTH_TO_END => DateRange(today, EndOfMonth(today))
    case QUARTER_TO_END => DateRange(today, EndOfQuarter(today))
    case HALF_YEAR_TO_END => DateRange(today, EndOfHalfYear(today))
    case YEAR_TO_END => DateRange(today, EndOfYear(today))
    case NEXT_WEEK => var n := AddDays(StartOfWeek(today), 7); DateRange(n, EndOfWeek(n))
    case NEXT_MONTH => var n := AddMonths(StartOfMonth(today), 1); DateRange(n, EndOfMonth(n))
    case NEXT_QUARTER => var n := AddMonths(StartOfQuarter(today), 3); DateRange(n, EndOfQuarter(n))
    case NEXT_HALF_YEAR => var n := AddMonths(StartOfHalfYear(today), 6); DateRange(n, EndOfHalfYear(n))
    case NEXT_YEAR => var n := AddYears(StartOfYear(today), 1); DateRange(n, EndOfYear(n))
    case YESTERDAY => var y := AddDays(today, -1); DateRange(y, EndOfDay(y))
    case LAST_WEEK => var l := AddDays(StartOfWeek(today), -7); DateRange(l, EndOfWeek(l))
    case LAST_MONTH => var l := AddMonths(StartOfMonth(today), -1); DateRange(l, EndOfMonth(l))
    case LAST_QUARTER => var l := AddMonths(StartOfQuarter(today), -3); DateRange(l, EndOfQuarter(l))
    case LAST_HALF_YEAR => var l := AddMonths(StartOfHalfYear(today), -6); DateRange(l, EndOfHalfYear(l))
    case LAST_YEAR => var l := AddYears(StartOfYear(today), -1); DateRange(l, EndOfYear(l))
    case NEXT_ONE_WEEK => DateRange(today, EndOfDay(AddDays(today, 7)))
    case NEXT_ONE_MONTH => DateRange(today, EndOfDay(AddMonths(today, 1)))
    case NEXT_3_MONTHS => DateRange(today, EndOfDay(AddMonths(today, 3)))
    case NEXT_6_MONTHS => DateRange(today, EndOfDay(AddMonths(today, 6)))
    case NEXT_ONE_YEAR => DateRange(today, EndOfDay(AddYears(today, 1)))
    case LAST_ONE_WEEK => DateRange(AddDays(today, -7), EndOfDay(today))
    case LAST_ONE_MONTH => DateRange(AddMonths(today, -1), EndOfDay(today))
    case LAST_3_MONTHS => DateRange(AddMonths(today, -3), EndOfDay(today))
    case LAST_6_MONTHS => DateRange(AddMonths(today, -6), EndOfDay(today))
    case LAST_ONE_YEAR => DateRange(AddYears(today, -1), EndOfDay(today))
  }

  function ResolveReportRange(id: RangeId, now: Time, custom: Option<DateRange>): (r: Result<DateRange, string>)
    ensures r.Failure? <==> id == CUSTOM && custom.None?
  {
    if id != CUSTOM then Success(RelativeRange(id, StartOfDay(now)))
    else if custom.None? then Failure("CUSTOM range requires from/to dates")
    else Success(DateRange(StartOfDay(custom.value.from), EndOfDay(custom.value.to)))
  }

  // ---- the four month-based units on one footing -------------------------

  predicate MonthUnit(n: int) { n in {1, 3, 6, 12} }

  /** Absolute month in which the `n`-month unit of a time value starts, as the Date constructor sees the year. */
  function UnitMonth(t: Time, n: int): int
    requires MonthUnit(n)
  {
    12 * ConstructorYear(FullYear(t)) + Month(t) / n * n
  }

  function UnitStart(t: Time, n: int): Time
    requires MonthUnit(n)
  {
    if n == 1 then StartOfMonth(t)
    else if n == 3 then StartOfQuarter(t)
    else if n == 6 then StartOfHalfYear(t)
    else StartOfYear(t)
  }

  function UnitEnd(t: Time, n: int): Time
    requires MonthUnit(n)
  {
    if n == 1 then EndOfMonth(t) else if n == 3 then EndOfQuarter(t) else if n == 6 then EndOfHalfYear(t)
    else EndOfYear(t)
  }

  /** Midnight on the first of absolute month `k`. */
  function Midnight(k: int): Time { MakeTime(MonthStart(k), 0) }

  lemma MidnightIncreasing(j: int, k: int)
    requires j < k
    ensures Midnight(j) + 28 * MS_PER_DAY <= Midnight(k)
  {
    hide MonthStart;
    MonthStartIncreasing(j, k);
  }

  lemma DecemberLength(y: int)
    ensures MonthStart(12 * y + 12) == MonthStart(12 * y + 11) + 31
  {
    YearLength(y);
    Quotient(12 * y + 11, 12, y, 11);
    Quotient(12 * y + 12, 12, y + 1, 0);
  }

  lemma UnitBounds(t: Time, n: int)
    requires MonthUnit(n)
    ensures UnitStart(t, n) == Midnight(UnitMonth(t, n))
    ensures UnitEnd(t, n) == Midnight(UnitMonth(t, n) + n) - 1
  {
    DecemberLength(ConstructorYear(FullYear(t)));
    hide MonthStart;
    var y := ConstructorYear(FullYear(t));
    assert Month(t) / 1 == Month(t);
    assert Month(t) / 6 * 6 == if Month(t) < 6 then 0 else 6;
    assert Month(t) / 12 * 12 == 0;
    if n == 12 {
      EndOfDayBefore(MonthStart(12 * y + 12));
    } else {
      EndOfDayBefore(MonthStart(UnitMonth(t, n) + n));
    }
  }

  lemma EndOfDayBefore(day: int)
    ensures EndOfDay(MakeTime(day - 1, 0)) == MakeTime(day, 0) - 1
  {
    MakeTimeParts(day - 1, 0);
  }

  /** The Date constructor cannot build a date in these years. */
  predicate TwoDigitYear(t: Time) { 0 <= FullYear(t) <= 99 }

  /** Outside the two-digit years a unit contains its own time value; inside, it starts centuries later. */
  lemma UnitContains(t: Time, n: int)
    requires MonthUnit(n)
    ensures !TwoDigitYear(t) ==> UnitStart(t, n) <= t <= UnitEnd(t, n)
    ensures TwoDigitYear(t) ==> t < UnitStart(t, n)
  {
    hide MonthStart, Midnight, UnitStart, UnitEnd, UnitMonth, AbsMonth;
    UnitBounds(t, n);
    InMonth(t);
    UnitAgainstMonth(t, n);
    var k, u := AbsMonth(t), UnitMonth(t, n);
    if TwoDigitYear(t) {
      MidnightIncreasing(k + 1, u);
    } else {
      if u < k { MidnightIncreasing(u, k); }
      if k + 1 < u + n { MidnightIncreasing(k + 1, u + n); }
    }
  }

  lemma UnitAgainstMonth(t: Time, n: int)
    requires MonthUnit(n)
    ensures !TwoDigitYear(t) ==> UnitMonth(t, n) <= AbsMonth(t) < UnitMonth(t, n) + n
    ensures TwoDigitYear(t) ==> AbsMonth(t) + 1 < UnitMonth(t, n)
  {
    MonthParts(t);
    hide FullYear, Month, AbsMonth;
    MonthInUnit(Month(t), n);
  }

  lemma MonthParts(t: Time)
    ensures AbsMonth(t) == 12 * FullYear(t) + Month(t) && 0 <= Month(t) < 12
  {
  }

  lemma MonthInUnit(month: int, n: int)
    requires MonthUnit(n) && 0 <= month < 12
    ensures 0 <= month / n * n <= month < month / n * n + n
  {
    if n == 1 {
    } else if n == 3 {
      assert month / 3 * 3 <= month < month / 3 * 3 + 3;
    } else if n == 6 {
      assert month / 6 * 6 <= month < month / 6 * 6 + 6;
    } else {
      assert month / 12 == 0;
    }
  }

  lemma InMonth(t: Time)
    ensures Midnight(AbsMonth(t)) <= t < Midnight(AbsMonth(t) + 1)
  {
    hide MonthStart;
    assert t == MakeTime(Day(t), TimeInDay(t));
    var k := AbsMonth(t);
    assert MonthStart(k) <= Day(t) < MonthStart(k + 1);
  }

  /** On the first of a month that starts a unit, the unit is the one starting there, unless the year is misread. */
  lemma UnitOfFirst(k: int, n: int)
    requires MonthUnit(n) && k % n == 0
    ensures AbsMonth(Midnight(k)) == k
    ensures TwoDigitYear(Midnight(k)) <==> 0 <= k < 1200
    ensures if TwoDigitYear(Midnight(k)) then UnitMonth(Midnight(k), n) == k + 22800 else UnitMonth(Midnight(k), n) == k
  {
    hide MonthStart;
    AddMonthsToFirst(k, 0);
    UnitAligned(k, n);
  }

  lemma UnitAligned(k: int, n: int)
    requires MonthUnit(n) && k % n == 0
    ensures k % 12 / n * n == k % 12
  {
    if n == 1 {
      assert k % 12 / 1 * 1 == k % 12;
    } else if n == 3 {
      assert k % 12 / 3 * 3 == k % 12;
    } else if n == 6 {
      assert k % 12 / 6 * 6 == k % 12;
    } else {
      assert n == 12 && k % 12 == 0;
    }
  }

  // ---- theorems ---------------------------------------------------------

  ghost predicate Tiles(last: DateRange, current: DateRange, next: DateRange, now: Time, endOfNext: Time) {
    && current.from <= now <= current.to
    && last.to + 1 == current.from
    && current.to + 1 == next.from
    && next.to + 1 == endOfNext
  }

  function RangeOf(id: RangeId, now: Time): DateRange
    requires id != CUSTOM
  {
    RelativeRange(id, StartOfDay(now))
  }

  /** LAST_*, THIS_* and NEXT_* of a month-based unit. */
  function UnitRanges(n: int): (RangeId, RangeId, RangeId)
    requires MonthUnit(n)
  {
    if n == 1 then (LAST_MONTH, THIS_MONTH, NEXT_MONTH)
    else if n == 3 then (LAST_QUARTER, THIS_QUARTER, NEXT_QUARTER)
    else if n == 6 then (LAST_HALF_YEAR, THIS_HALF_YEAR, NEXT_HALF_YEAR)
    else (LAST_YEAR, THIS_YEAR, NEXT_YEAR)
  }

  lemma UnitRangesAre(n: int, now: Time)
    requires MonthUnit(n)
    ensures var today := StartOfDay(now);
            var (l, t, x) := UnitRanges(n);
            var u := UnitMonth(today, n);
            && RangeOf(t, now) == DateRange(Midnight(u), Midnight(u + n) - 1)
            && RangeOf(l, now) == DateRange(Midnight(u - n), UnitEnd(Midnight(u - n), n))
            && RangeOf(x, now) == DateRange(Midnight(u + n), UnitEnd(Midnight(u + n), n))
  {
    hide MonthStart, AddMonths, UnitMonth, StartOfDay, UnitStart, UnitEnd, RelativeRange, UnitRanges;
    var today := StartOfDay(now);
    var u := UnitMonth(today, n);
    UnitsAsRanges(n, today);
    UnitBounds(today, n);
    AddMonthsToFirst(u, -n);
    AddMonthsToFirst(u, n);
  }

  /** The ranges of a unit by the start and end of the unit. */
  lemma UnitsAsRanges(n: int, today: Time)
    requires MonthUnit(n)
    ensures var (l, t, x) := UnitRanges(n);
            var last, next := AddMonths(UnitStart(today, n), -n), AddMonths(UnitStart(today, n), n);
            && RelativeRange(t, today) == DateRange(UnitStart(today, n), UnitEnd(today, n))
            && RelativeRange(l, today) == DateRange(last, UnitEnd(last, n))
            && RelativeRange(x, today) == DateRange(next, UnitEnd(next, n))
  {
    hide StartOfMonth, StartOfQuarter, StartOfHalfYear, StartOfYear, EndOfMonth, EndOfQuarter, EndOfHalfYear, EndOfYear;
    AddYearsIsMonths(StartOfYear(today), 1);
    AddYearsIsMonths(StartOfYear(today), -1);
    hide AddMonths, AddYears;
  }

  lemma AddYearsIsMonths(t: Time, years: int)
    ensures AddYears(t, years) == AddMonths(t, 12 * years)
  {
  }

  lemma SameDay(now: Time)
    ensures AbsMonth(StartOfDay(now)) == AbsMonth(now)
    ensures StartOfDay(now) <= now <= EndOfDay(now)
    ensures EndOfDay(StartOfDay(now)) == EndOfDay(now)
  {
    MakeTimeParts(Day(now), 0);
  }

  /** The three ranges tile time exactly when none of them starts in a year that the Date constructor misreads. */
  lemma UnitsTileWhenStartsAreRead(n: int, now: Time)
    requires MonthUnit(n)
    ensures var (l, t, x) := UnitRanges(n);
            var (last, current, next) := (RangeOf(l, now), RangeOf(t, now), RangeOf(x, now));
            Tiles(last, current, next, now, AddMonths(next.from, n))
            <==> !TwoDigitYear(now) && !TwoDigitYear(last.from) && !TwoDigitYear(next.from)
  {
    hide MonthStart, StartOfMonth, StartOfQuarter, StartOfHalfYear, StartOfYear;
    hide EndOfMonth, EndOfQuarter, EndOfHalfYear, EndOfYear, AddMonths, StartOfDay, RangeOf, UnitStart, UnitEnd;
    SameDay(now);
    UnitRangesAre(n, now);
    var u := UnitMonth(StartOfDay(now), n);
    assert u == UnitMonth(now, n);
    hide UnitMonth;
    UnitContains(now, n);
    UnitBounds(now, n);
    UnitMonthAligned(now, n);
    UnitEndOfFirst(u - n, n);
    UnitEndOfFirst(u + n, n);
    AddMonthsToFirst(u + n, n);
    assert AddMonths(Midnight(u + n), n) == Midnight(u + n + n);
  }

  /** The years from 0 to 99, the first unit of the year 100 and the last unit before the year 0. */
  predicate NearTwoDigitYears(n: int, now: Time) {
    TwoDigitYear(now) || (FullYear(now) == 100 && Month(now) < n) || (FullYear(now) == -1 && Month(now) >= 12 - n)
  }

  /**
    Months, quarters, half-years and years: the three ranges tile time, with
    the current one containing now, exactly when now lies neither in the
    years that the Date constructor misreads nor in a unit next to them.
   */
  lemma UnitsTile(n: int, now: Time)
    requires MonthUnit(n)
    ensures var (l, t, x) := UnitRanges(n);
            var (last, current, next) := (RangeOf(l, now), RangeOf(t, now), RangeOf(x, now));
            Tiles(last, current, next, now, AddMonths(next.from, n)) <==> !NearTwoDigitYears(n, now)
  {
    hide RangeOf, UnitRanges, Tiles, AddMonths;
    UnitsTileWhenStartsAreRead(n, now);
    if !TwoDigitYear(now) {
      NeighbouringUnits(n, now);
    }
  }

  lemma NeighbouringUnits(n: int, now: Time)
    requires MonthUnit(n) && !TwoDigitYear(now)
    ensures TwoDigitYear(RangeOf(UnitRanges(n).0, now).from) <==> FullYear(now) == 100 && Month(now) < n
    ensures TwoDigitYear(RangeOf(UnitRanges(n).2, now).from) <==> FullYear(now) == -1 && Month(now) >= 12 - n
  {
    hide MonthStart, RangeOf, UnitRanges, UnitEnd, AddMonths, StartOfDay, Midnight;
    SameDay(now);
    UnitRangesAre(n, now);
    MonthParts(now);
    UnitMonthAligned(now, n);
    var u := UnitMonth(now, n);
    assert UnitMonth(StartOfDay(now), n) == u;
    UnitOfFirst(u - n, n);
    UnitOfFirst(u + n, n);
    hide TwoDigitYear;
    UnitNextToCentury(FullYear(now), Month(now), n);
  }

  lemma UnitNextToCentury(y: int, month: int, n: int)
    requires MonthUnit(n) && 0 <= month < 12 && !(0 <= y <= 99)
    ensures var u := 12 * y + month / n * n;
            && (0 <= u - n < 1200 <==> y == 100 && month < n)
            && (0 <= u + n < 1200 <==> y == -1 && month >= 12 - n)
  {
    MonthInUnit(month, n);
    if n == 1 {
    } else if n == 3 {
      assert month / 3 in {0, 1, 2, 3};
    } else if n == 6 {
      assert month / 6 in {0, 1};
    } else {
      assert month / 12 == 0;
    }
  }

  /** A concrete failure: seen from the first instant of the year 50, THIS_YEAR is the year 1950. */
  lemma YearFiftyIsMisread()
    ensures RangeOf(THIS_YEAR, Midnight(600)).from == Midnight(23400) > Midnight(600)
  {
    hide MonthStart, RangeOf, UnitMonth, TwoDigitYear, FullYear, AbsMonth;
    MakeTimeParts(MonthStart(600), 0);
    assert StartOfDay(Midnight(600)) == Midnight(600);
    hide StartOfDay, Midnight;
    assert 600 % 12 == 0;
    UnitOfFirst(600, 12);
    UnitRangesAre(12, Midnight(600));
    MidnightIncreasing(600, 23400);
  }

  lemma UnitMonthAligned(t: Time, n: int)
    requires MonthUnit(n)
    ensures UnitMonth(t, n) % n == 0
    ensures (UnitMonth(t, n) - n) % n == 0
    ensures (UnitMonth(t, n) + n) % n == 0
  {
    hide ConstructorYear, FullYear, Month;
    Aligned(ConstructorYear(FullYear(t)), Month(t), n);
  }

  lemma Aligned(y: int, month: int, n: int)
    requires MonthUnit(n)
    ensures var u := 12 * y + month / n * n; u % n == 0 && (u - n) % n == 0 && (u + n) % n == 0
  {
    if n == 1 {
    } else if n == 3 {
      MultiplesAround(3, 4 * y + month / 3);
    } else if n == 6 {
      MultiplesAround(6, 2 * y + month / 6);
    } else {
      MultiplesAround(12, y + month / 12);
    }
  }

  lemma MultiplesAround(n: int, x: int)
    requires n in {3, 6, 12}
    ensures (n * x) % n == 0 && (n * x - n) % n == 0 && (n * x + n) % n == 0
  {
    if n == 3 {
      Quotient(3 * x, 3, x, 0);
      Quotient(3 * x - 3, 3, x - 1, 0);
      Quotient(3 * x + 3, 3, x + 1, 0);
    } else if n == 6 {
      Quotient(6 * x, 6, x, 0);
      Quotient(6 * x - 6, 6, x - 1, 0);
      Quotient(6 * x + 6, 6, x + 1, 0);
    } else {
      Quotient(12 * x, 12, x, 0);
      Quotient(12 * x - 12, 12, x - 1, 0);
      Quotient(12 * x + 12, 12, x + 1, 0);
    }
  }

  /** The end of a unit found from its first instant is right exactly when the year is read right. */
  lemma UnitEndOfFirst(k: int, n: int)
    requires MonthUnit(n) && k % n == 0
    ensures UnitEnd(Midnight(k), n) + 1 == Midnight(k + n) <==> !TwoDigitYear(Midnight(k))
    ensures Midnight(k) <= UnitEnd(Midnight(k), n)
  {
    hide MonthStart;
    UnitOfFirst(k, n);
    UnitBounds(Midnight(k), n);
    MidnightIncreasing(k + n, k + n + 22800);
    MidnightIncreasing(k, k + n);
  }

  lemma WeekIsSevenDays(d: Time)
    ensures StartOfWeek(d) <= d <= EndOfWeek(d)
    ensures EndOfWeek(d) + 1 == StartOfWeek(d) + 7 * MS_PER_DAY
    ensures WeekDay(StartOfWeek(d)) == 1 && TimeInDay(StartOfWeek(d)) == 0
    ensures WeekDay(d) == 1 && TimeInDay(d) == 0 ==> StartOfWeek(d) == d
  {
    hide AddDays, EndOfDay, MonthOfDay;
    var monday := Day(d) - (if WeekDay(d) == 0 then 7 else WeekDay(d)) + 1;
    StartOfWeekIsMonday(d);
    AddDaysIsDays(StartOfWeek(d), 6);
    assert AddDays(StartOfWeek(d), 6) == MakeTime(monday + 7 - 1, 0);
    EndOfDayBefore(monday + 7);
    MakeTimeParts(monday, 0);
  }

  lemma StartOfWeekIsMonday(d: Time)
    ensures StartOfWeek(d) == MakeTime(Day(d) - (if WeekDay(d) == 0 then 7 else WeekDay(d)) + 1, 0)
  {
    hide AddDays, MonthOfDay;
    var day := if WeekDay(d) == 0 then 7 else WeekDay(d);
    MakeTimeParts(Day(d), 0);
    AddDaysIsDays(StartOfDay(d), -(day - 1));
  }

  /** Weeks tile time for every date. */
  lemma WeeksTile(now: Time)
    ensures var next := RangeOf(NEXT_WEEK, now);
            Tiles(RangeOf(LAST_WEEK, now), RangeOf(THIS_WEEK, now), next, now, next.from + 7 * MS_PER_DAY)
  {
    hide MonthStart, StartOfMonth, StartOfQuarter, StartOfHalfYear, StartOfYear, EndOfMonth, EndOfQuarter,
         EndOfHalfYear, EndOfYear;
    hide StartOfWeek, EndOfWeek, AddMonths, AddYears, AddDays;
    var today := StartOfDay(now);
    var monday := StartOfWeek(today);
    SameWeek(now);
    WeekIsSevenDays(now);
    WeekIsSevenDays(today);
    AddDaysIsDays(monday, 7);
    AddDaysIsDays(monday, -7);
    WeekAfter(monday, 1);
    WeekAfter(monday, -1);
  }

  lemma SameWeek(now: Time)
    ensures StartOfWeek(StartOfDay(now)) == StartOfWeek(now) && EndOfWeek(StartOfDay(now)) == EndOfWeek(now)
  {
    hide StartOfWeek, WeekDay;
    MakeTimeParts(Day(now), 0);
    StartOfWeekIsMonday(now);
    StartOfWeekIsMonday(StartOfDay(now));
    SameWeekDay(now);
  }

  lemma SameWeekDay(now: Time)
    ensures WeekDay(StartOfDay(now)) == WeekDay(now)
  {
    MakeTimeParts(Day(now), 0);
  }

  /** A Monday shifted by whole weeks starts its own week. */
  lemma WeekAfter(monday: Time, weeks: int)
    requires WeekDay(monday) == 1 && TimeInDay(monday) == 0
    ensures var d := monday + 7 * weeks * MS_PER_DAY; StartOfWeek(d) == d && EndOfWeek(d) + 1 == d + 7 * MS_PER_DAY
  {
    hide StartOfWeek, EndOfWeek;
    var d := monday + 7 * weeks * MS_PER_DAY;
    MakeTimeParts(Day(monday) + 7 * weeks, 0);
    assert d == MakeTime(Day(monday) + 7 * weeks, 0);
    WeekIsSevenDays(d);
  }

  /** A month lies in its quarter, a quarter in its half-year, a half-year in its year, for every date. */
  lemma UnitsNest(m: int, n: int, now: Time)
    requires MonthUnit(m) && MonthUnit(n) && m < n
    ensures RangeOf(UnitRanges(n).1, now).from <= RangeOf(UnitRanges(m).1, now).from
    ensures RangeOf(UnitRanges(m).1, now).to <= RangeOf(UnitRanges(n).1, now).to
  {
    hide RangeOf, UnitRanges, UnitMonth, UnitEnd, Midnight, StartOfDay, MonthUnit;
    UnitRangesAre(m, now);
    UnitRangesAre(n, now);
    var um, un := UnitMonth(StartOfDay(now), m), UnitMonth(StartOfDay(now), n);
    NestedMonths(StartOfDay(now), m, n);
    if un < um { MidnightIncreasing(un, um); }
    if um + m < un + n { MidnightIncreasing(um + m, un + n); }
  }

  lemma NestedMonths(t: Time, m: int, n: int)
    requires MonthUnit(m) && MonthUnit(n) && m < n
    ensures UnitMonth(t, n) <= UnitMonth(t, m) && UnitMonth(t, m) + m <= UnitMonth(t, n) + n
  {
    MonthParts(t);
    hide FullYear, Month, ConstructorYear;
    Nested(Month(t), m, n);
  }

  lemma Nested(month: int, m: int, n: int)
    requires 0 <= month < 12 && MonthUnit(m) && MonthUnit(n) && m < n
    ensures month / n * n <= month / m * m
    ensures month / m * m + m <= month / n * n + n
  {
  }

  /** Every range but CUSTOM ends no earlier than it starts; CUSTOM does when its dates are in order. */
  lemma RangesAreOrdered(id: RangeId, now: Time, custom: Option<DateRange>)
    ensures var r := ResolveReportRange(id, now, custom);
            && (r.Failure? <==> id == CUSTOM && custom.None?)
            && (r.Success? && id != CUSTOM ==> r.value.from <= r.value.to)
            && (r.Success? && id == CUSTOM ==>
               (r.value.from <= r.value.to <==> Day(custom.value.from) <= Day(custom.value.to)))
  {
    hide ResolveReportRange;
    if id != CUSTOM {
      if UnitId(id) { UnitIdOrdered(id, now); } else { OtherIdOrdered(id, now); }
      RangeOfIsResolved(id, now, custom);
    } else if custom.Some? {
      CustomRange(now, custom.value);
    }
  }

  lemma RangeOfIsResolved(id: RangeId, now: Time, custom: Option<DateRange>)
    requires id != CUSTOM
    ensures ResolveReportRange(id, now, custom) == Success(RangeOf(id, now))
  {
    hide RelativeRange, StartOfDay;
  }

  lemma CustomRange(now: Time, custom: DateRange)
    ensures ResolveReportRange(CUSTOM, now, Some(custom))
            == Success(DateRange(StartOfDay(custom.from), EndOfDay(custom.to)))
    ensures StartOfDay(custom.from) <= EndOfDay(custom.to) <==> Day(custom.from) <= Day(custom.to)
  {
    hide Day;
    assert StartOfDay(custom.from) == Day(custom.from) * MS_PER_DAY;
  }

  predicate UnitId(id: RangeId) {
    id in {LAST_MONTH, THIS_MONTH, NEXT_MONTH, LAST_QUARTER, THIS_QUARTER, NEXT_QUARTER, LAST_HALF_YEAR, THIS_HALF_YEAR,
      NEXT_HALF_YEAR,
           LAST_YEAR, THIS_YEAR, NEXT_YEAR}
  }

  lemma UnitIdOrdered(id: RangeId, now: Time)
    requires UnitId(id)
    ensures RangeOf(id, now).from <= RangeOf(id, now).to
  {
    hide RangeOf;
    UnitOrdered(1, now);
    UnitOrdered(3, now);
    UnitOrdered(6, now);
    UnitOrdered(12, now);
  }

  lemma OtherIdOrdered(id: RangeId, now: Time)
    requires id != CUSTOM && !UnitId(id)
    ensures RangeOf(id, now).from <= RangeOf(id, now).to
  {
    hide RangeOf;
    if ToEndId(id) {
      ToEndOrdered(id, now);
    } else if RollingId(id) {
      RollingWindowsContainNow(id, now);
    } else {
      DayOrWeekOrdered(id, now);
    }
  }

  predicate ToEndId(id: RangeId) {
    id in {MONTH_TO_END, QUARTER_TO_END, HALF_YEAR_TO_END, YEAR_TO_END}
  }

  lemma ToEndOrdered(id: RangeId, now: Time)
    requires ToEndId(id)
    ensures RangeOf(id, now).from <= RangeOf(id, now).to
  {
    hide StartOfMonth, StartOfQuarter, StartOfHalfYear, StartOfYear, EndOfMonth, EndOfQuarter, EndOfHalfYear, EndOfYear;
    hide StartOfWeek, EndOfWeek, AddMonths, AddYears, AddDays, UnitMonth, StartOfDay, EndOfDay;
    var n := if id == MONTH_TO_END then 1 else if id == QUARTER_TO_END then 3 else if id == HALF_YEAR_TO_END then 6
      else 12;
    assert RangeOf(id, now) == DateRange(StartOfDay(now), UnitEnd(StartOfDay(now), n));
    UnitsAsRanges(n, StartOfDay(now));
    hide RelativeRange, UnitStart, UnitEnd, UnitRanges;
    UnitOrdered(n, now);
  }

  lemma DayOrWeekOrdered(id: RangeId, now: Time)
    requires id != CUSTOM && !UnitId(id) && !ToEndId(id) && !RollingId(id)
    ensures RangeOf(id, now).from <= RangeOf(id, now).to
  {
    hide StartOfMonth, StartOfQuarter, StartOfHalfYear, StartOfYear, EndOfMonth, EndOfQuarter, EndOfHalfYear, EndOfYear;
    hide StartOfWeek, EndOfWeek, AddMonths, AddYears, AddDays, UnitMonth, UnitStart, UnitEnd, StartOfDay, EndOfDay;
    var today := StartOfDay(now);
    SameDay(now);
    match id {
      case THIS_WEEK => WeekIsSevenDays(today);
      case WEEK_TO_END => WeekIsSevenDays(today);
      case NEXT_WEEK => WeekIsSevenDays(AddDays(StartOfWeek(today), 7));
      case LAST_WEEK => WeekIsSevenDays(AddDays(StartOfWeek(today), -7));
      case TOMORROW => SameDay(AddDays(today, 1));
      case YESTERDAY => SameDay(AddDays(today, -1));
      case TODAY => SameDay(today);
    }
  }

  lemma UnitOrdered(n: int, now: Time)
    requires MonthUnit(n)
    ensures RangeOf(UnitRanges(n).0, now).from <= RangeOf(UnitRanges(n).0, now).to
    ensures RangeOf(UnitRanges(n).1, now).from <= RangeOf(UnitRanges(n).1, now).to
    ensures RangeOf(UnitRanges(n).2, now).from <= RangeOf(UnitRanges(n).2, now).to
    ensures StartOfDay(now) <= RangeOf(UnitRanges(n).1, now).to
  {
    hide MonthStart, Midnight, UnitStart, UnitEnd, UnitMonth, RangeOf, UnitRanges, StartOfDay, TwoDigitYear;
    var today := StartOfDay(now);
    var u := UnitMonth(today, n);
    UnitRangesAre(n, now);
    UnitMonthAligned(today, n);
    UnitEndOfFirst(u - n, n);
    UnitEndOfFirst(u + n, n);
    MidnightIncreasing(u, u + n);
    UnitContains(today, n);
    UnitBounds(today, n);
  }

  predicate RollingId(id: RangeId) {
    id in {NEXT_ONE_WEEK, NEXT_ONE_MONTH, NEXT_3_MONTHS, NEXT_6_MONTHS, NEXT_ONE_YEAR,
           LAST_ONE_WEEK, LAST_ONE_MONTH, LAST_3_MONTHS, LAST_6_MONTHS, LAST_ONE_YEAR}
  }

  predicate Forward(id: RangeId) {
    id in {NEXT_ONE_WEEK, NEXT_ONE_MONTH, NEXT_3_MONTHS, NEXT_6_MONTHS, NEXT_ONE_YEAR}
  }

  /** Months of a rolling window; 0 for the weeks. */
  function WindowMonths(id: RangeId): int {
    match id
    case NEXT_ONE_MONTH => 1
    case NEXT_3_MONTHS => 3
    case NEXT_6_MONTHS => 6
    case NEXT_ONE_YEAR => 12
    case LAST_ONE_MONTH => 1
    case LAST_3_MONTHS => 3
    case LAST_6_MONTHS => 6
    case LAST_ONE_YEAR => 12
    case _ => 0
  }

  lemma MonthsAway(today: Time, months: int)
    requires months > 0 && TimeInDay(today) == 0
    ensures Day(AddMonths(today, -months)) < Day(today) < Day(AddMonths(today, months))
  {
    hide MonthStart, Day, TimeInDay;
    AddZeroMonths(today);
    AddMonthsIncreasing(today, 0, months);
    AddMonthsIncreasing(today, -months, 0);
  }

  lemma DaysAway(today: Time, n: int)
    ensures Day(AddDays(today, n)) == Day(today) + n
  {
    hide AddDays;
    AddDaysIsDays(today, n);
    DayPlus(today, n);
  }

  lemma DayPlus(t: Time, n: int)
    ensures Day(t + n * MS_PER_DAY) == Day(t) + n
  {
    Quotient(t + n * MS_PER_DAY, MS_PER_DAY, Day(t) + n, TimeInDay(t));
  }

  /**
    A rolling window starts or ends today and reaches into at least one other day on
    the other side, so it contains now.
   */
  lemma RollingWindowsContainNow(id: RangeId, now: Time)
    requires RollingId(id)
    ensures var r := RangeOf(id, now);
            && r.from <= now <= r.to
            && (if Forward(id) then r.from == StartOfDay(now) && Day(r.to) > Day(now)
                else r.to == EndOfDay(now) && Day(r.from) < Day(now))
  {
    hide MonthStart, AddMonths, AddDays, AddYears;
    var today := StartOfDay(now);
    SameDay(now);
    MakeTimeParts(Day(now), 0);
    DaysAway(today, 7);
    DaysAway(today, -7);
    if WindowMonths(id) > 0 {
      MonthsAway(today, WindowMonths(id));
    }
    AddYearsIsMonths(today, 1);
    AddYearsIsMonths(today, -1);
    WindowOf(id, now);
    WholeDays(RangeOf(id, now), now);
  }

  lemma WindowOf(id: RangeId, now: Time)
    requires RollingId(id)
    ensures var today := StartOfDay(now);
            var m := WindowMonths(id);
            RangeOf(id, now)
            == if Forward(id) then DateRange(today, EndOfDay(if m > 0 then AddMonths(today, m) else AddDays(today, 7)))
               else DateRange(if m > 0 then AddMonths(today, -m) else AddDays(today, -7), EndOfDay(today))
  {
    hide MonthStart, AddMonths, AddDays, AddYears, EndOfDay, StartOfDay;
    AddYearsIsMonths(StartOfDay(now), 1);
    AddYearsIsMonths(StartOfDay(now), -1);
  }

  lemma WholeDays(r: DateRange, now: Time)
    ensures Day(r.from) < Day(now) ==> r.from <= now
    ensures Day(now) < Day(r.to) ==> now <= r.to
    ensures r.from == StartOfDay(now) ==> r.from <= now
    ensures r.to == EndOfDay(now) ==> now <= r.to
  {
  }

  // ---- which days, months and windows -----------------------------------------

  /** Yesterday, today and tomorrow are three whole days in a row, and now lies in the middle one. */
  lemma DaysTile(now: Time)
    ensures var y, t, x := RangeOf(YESTERDAY, now), RangeOf(TODAY, now), RangeOf(TOMORROW, now);
            && t.from <= now <= t.to && t.from % MS_PER_DAY == 0 && t.to + 1 == t.from + MS_PER_DAY
            && y.from == t.from - MS_PER_DAY && y.to + 1 == t.from
            && x.from == t.to + 1 && x.to == t.to + MS_PER_DAY
  {
    hide AddDays;
    var today := StartOfDay(now);
    AddDaysIsDays(today, 1);
    AddDaysIsDays(today, -1);
    WholeDay(Day(now), now);
    WholeDay(Day(now) + 1, today + MS_PER_DAY);
    WholeDay(Day(now) - 1, today - MS_PER_DAY);
  }

  lemma WholeDay(day: int, t: Time)
    requires day * MS_PER_DAY <= t < (day + 1) * MS_PER_DAY
    ensures StartOfDay(t) == day * MS_PER_DAY && EndOfDay(t) == day * MS_PER_DAY + MS_PER_DAY - 1
    ensures (day * MS_PER_DAY) % MS_PER_DAY == 0
  {
    Quotient(t, MS_PER_DAY, day, t - day * MS_PER_DAY);
    Quotient(day * MS_PER_DAY, MS_PER_DAY, day, 0);
  }

  /** A range "to the end" starts today and ends where the week, month, quarter, half-year or year does. */
  lemma ToEndMeans(now: Time)
    ensures RangeOf(WEEK_TO_END, now) == DateRange(StartOfDay(now), RangeOf(THIS_WEEK, now).to)
    ensures RangeOf(MONTH_TO_END, now) == DateRange(StartOfDay(now), RangeOf(THIS_MONTH, now).to)
    ensures RangeOf(QUARTER_TO_END, now) == DateRange(StartOfDay(now), RangeOf(THIS_QUARTER, now).to)
    ensures RangeOf(HALF_YEAR_TO_END, now) == DateRange(StartOfDay(now), RangeOf(THIS_HALF_YEAR, now).to)
    ensures RangeOf(YEAR_TO_END, now) == DateRange(StartOfDay(now), RangeOf(THIS_YEAR, now).to)
  {
    hide EndOfWeek, EndOfMonth, EndOfQuarter, EndOfHalfYear, EndOfYear, StartOfDay;
    hide StartOfWeek, StartOfMonth, StartOfQuarter, StartOfHalfYear, StartOfYear;
  }

  ghost predicate FirstOfMonth(t: Time, months: set<int>) {
    TimeInDay(t) == 0 && DateOfMonth(t) == 1 && Month(t) in months
  }

  /** Quarters start with January, April, July and October, half-years with January and July, years with January. */
  lemma UnitsStartWith(now: Time)
    ensures FirstOfMonth(RangeOf(THIS_MONTH, now).from, {Month(now)})
    ensures FirstOfMonth(RangeOf(THIS_QUARTER, now).from, {0, 3, 6, 9})
    ensures FirstOfMonth(RangeOf(THIS_HALF_YEAR, now).from, {0, 6})
    ensures FirstOfMonth(RangeOf(THIS_YEAR, now).from, {0})
  {
    hide RangeOf, FirstOfMonth;
    UnitStartsWith(1, now);
    UnitStartsWith(3, now);
    UnitStartsWith(6, now);
    UnitStartsWith(12, now);
  }

  lemma UnitStartsWith(n: int, now: Time)
    requires MonthUnit(n)
    ensures var months := if n == 1 then {Month(now)} else if n == 3 then {0, 3, 6, 9} else if n == 6 then {0, 6}
            else {0};
            FirstOfMonth(RangeOf(UnitRanges(n).1, now).from, months)
  {
    hide RangeOf, MonthStart, UnitEnd, Midnight;
    SameDay(now);
    UnitRangesAre(n, now);
    var u, m := UnitMonth(StartOfDay(now), n), Month(now);
    MonthParts(now);
    assert m / 1 * 1 == m && m / 12 * 12 == 0;
    assert m / 3 * 3 in {0, 3, 6, 9} && m / 6 * 6 in {0, 6};
    FirstMidnight(u);
    MonthSplit(ConstructorYear(FullYear(now)), m / n * n);
  }

  lemma FirstMidnight(k: int)
    ensures TimeInDay(Midnight(k)) == 0 && DateOfMonth(Midnight(k)) == 1 && Month(Midnight(k)) == k % 12
  {
    hide MonthStart;
    AddMonthsToFirst(k, 0);
    MakeTimeParts(MonthStart(k), 0);
  }

  /**
    That many months away: on the same day of the month if there is one, otherwise
    in the month after, on the excess day.
   */
  ghost predicate MonthsFrom(t: Time, now: Time, months: int) {
    var target := AbsMonth(now) + months;
    var length := MonthStart(target + 1) - MonthStart(target);
    if DateOfMonth(now) <= length then AbsMonth(t) == target && DateOfMonth(t) == DateOfMonth(now)
    else AbsMonth(t) == target + 1 && DateOfMonth(t) == DateOfMonth(now) - length
  }

  /** How far the rolling windows reach ahead. */
  lemma WindowsAhead(now: Time)
    ensures RangeOf(NEXT_ONE_WEEK, now).to == EndOfDay(now) + 7 * MS_PER_DAY
    ensures MonthsFrom(RangeOf(NEXT_ONE_MONTH, now).to, now, 1)
    ensures MonthsFrom(RangeOf(NEXT_3_MONTHS, now).to, now, 3)
    ensures MonthsFrom(RangeOf(NEXT_6_MONTHS, now).to, now, 6)
    ensures MonthsFrom(RangeOf(NEXT_ONE_YEAR, now).to, now, 12)
  {
    hide RangeOf, MonthsFrom, AddDays, StartOfDay, EndOfDay;
    WeeksAway(now);
    WindowOf(NEXT_ONE_WEEK, now);
    WindowReaches(NEXT_ONE_MONTH, now);
    WindowReaches(NEXT_3_MONTHS, now);
    WindowReaches(NEXT_6_MONTHS, now);
    WindowReaches(NEXT_ONE_YEAR, now);
  }

  /** And back. */
  lemma WindowsBack(now: Time)
    ensures RangeOf(LAST_ONE_WEEK, now).from == StartOfDay(now) - 7 * MS_PER_DAY
    ensures MonthsFrom(RangeOf(LAST_ONE_MONTH, now).from, now, -1)
    ensures MonthsFrom(RangeOf(LAST_3_MONTHS, now).from, now, -3)
    ensures MonthsFrom(RangeOf(LAST_6_MONTHS, now).from, now, -6)
    ensures MonthsFrom(RangeOf(LAST_ONE_YEAR, now).from, now, -12)
  {
    hide RangeOf, MonthsFrom, AddDays, StartOfDay, EndOfDay;
    WeeksAway(now);
    WindowOf(LAST_ONE_WEEK, now);
    WindowReaches(LAST_ONE_MONTH, now);
    WindowReaches(LAST_3_MONTHS, now);
    WindowReaches(LAST_6_MONTHS, now);
    WindowReaches(LAST_ONE_YEAR, now);
  }

  lemma WindowReaches(id: RangeId, now: Time)
    requires RollingId(id) && WindowMonths(id) > 0
    ensures if Forward(id) then MonthsFrom(RangeOf(id, now).to, now, WindowMonths(id))
            else MonthsFrom(RangeOf(id, now).from, now, -WindowMonths(id))
  {
    hide RangeOf, MonthsFrom, AddMonths, AddDays, StartOfDay, EndOfDay;
    MonthsAwayFrom(now, WindowMonths(id));
    WindowOf(id, now);
  }

  lemma WeeksAway(now: Time)
    ensures EndOfDay(AddDays(StartOfDay(now), 7)) == EndOfDay(now) + 7 * MS_PER_DAY
    ensures AddDays(StartOfDay(now), -7) == StartOfDay(now) - 7 * MS_PER_DAY
  {
    hide AddDays;
    var today := StartOfDay(now);
    AddDaysIsDays(today, 7);
    AddDaysIsDays(today, -7);
    WholeDay(Day(now), now);
    WholeDay(Day(now) + 7, today + 7 * MS_PER_DAY);
  }

  lemma MonthsAwayFrom(now: Time, months: int)
    ensures MonthsFrom(EndOfDay(AddMonths(StartOfDay(now), months)), now, months)
    ensures MonthsFrom(AddMonths(StartOfDay(now), -months), now, -months)
  {
    hide AddMonths, MonthStart;
    var today := StartOfDay(now);
    SameDate(now, today);
    AddMonthsLands(today, months);
    AddMonthsLands(today, -months);
    var end := AddMonths(today, months);
    MakeTimeParts(Day(end), MS_PER_DAY - 1);
    SameDate(end, EndOfDay(end));
  }

  lemma SameDate(t: Time, u: Time)
    requires u == StartOfDay(t) || u == EndOfDay(t)
    ensures AbsMonth(u) == AbsMonth(t) && DateOfMonth(u) == DateOfMonth(t)
  {
    hide MonthStart;
    MakeTimeParts(Day(t), 0);
    MakeTimeParts(Day(t), MS_PER_DAY - 1);
  }
}
