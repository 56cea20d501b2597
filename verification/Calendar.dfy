/**
  The date arithmetic of section 21.4.1 of ECMA-262, with local time taken to
  be free of daylight-saving changes. A time value is a whole number of
  milliseconds since the epoch, of any size.

  Months are counted on one absolute line, `12 * year + month`, so that
  setting a month past December carries into the year without a special case.
 */
module Calendar {

  const MS_PER_DAY := 86400000

  type Time = int

  // ---- days, years and months -------------------------------------------

  predicate Leap(y: int) {
    y % 4 == 0 && (y % 100 != 0 || y % 400 == 0)
  }

  /** DayFromYear of ECMA-262, section 21.4.1.3. */
  function DayFromYear(y: int): int {
    365 * (y - 1970) + (y - 1969) / 4 - (y - 1901) / 100 + (y - 1601) / 400
  }

  lemma YearLength(y: int)
    ensures DayFromYear(y + 1) - DayFromYear(y) == if Leap(y) then 366 else 365
  {
    Carry(y - 1969, 4);
    Carry(y - 1901, 100);
    Carry(y - 1601, 400);
    Shifted(y, 4, 492);
    Shifted(y, 100, 19);
    Shifted(y, 400, 4);
    if y % 400 == 0 {
      Quotient(y, 100, 4 * (y / 400), 0);
    }
    if y % 100 == 0 {
      Quotient(y, 4, 25 * (y / 100), 0);
    }
  }

  /** Taking away whole multiples keeps the remainder. */
  lemma Shifted(n: int, d: int, times: int)
    requires d > 0
    ensures (n - times * d) % d == n % d
  {
    assert n - times * d == (n / d - times) * d + n % d;
    Quotient(n - times * d, d, n / d - times, n % d);
  }

  lemma Carry(n: int, d: int)
    requires d > 1
    ensures (n + 1) / d - n / d == if (n + 1) % d == 0 then 1 else 0
  {
    var q, r := n / d, n % d;
    assert n == q * d + r;
    if r + 1 < d {
      Quotient(n + 1, d, q, r + 1);
    } else {
      assert n + 1 == (q + 1) * d + 0;
      Quotient(n + 1, d, q + 1, 0);
    }
  }

  lemma Quotient(n: int, d: int, q: int, r: int)
    requires d > 0 && 0 <= r < d && n == q * d + r
    ensures n / d == q && n % d == r
  {
    var q', r' := n / d, n % d;
    var gap := q - q';
    assert gap * d == r' - r;
    assert gap >= 1 ==> gap * d >= d;
    assert gap <= -1 ==> gap * d <= -d;
  }

  /** Days from 1 January to the first of month `m` (0 is January, 12 the next year's). */
  function DaysBeforeMonth(m: int, leap: bool): int
    requires 0 <= m <= 12
  {
    var f := if leap then 1 else 0;
    if m == 0 then 0
    else if m == 1 then 31
    else if m == 2 then 59 + f
    else if m == 3 then 90 + f
    else if m == 4 then 120 + f
    else if m == 5 then 151 + f
    else if m == 6 then 181 + f
    else if m == 7 then 212 + f
    else if m == 8 then 243 + f
    else if m == 9 then 273 + f
    else if m == 10 then 304 + f
    else if m == 11 then 334 + f
    else 365 + f
  }

  /** The day number of the first of absolute month `k`. */
  function MonthStart(k: int): int {
    DayFromYear(k / 12) + DaysBeforeMonth(k % 12, Leap(k / 12))
  }

  /** Every month has 28 to 31 days, across year ends too. */
  lemma MonthLength(k: int)
    ensures 28 <= MonthStart(k + 1) - MonthStart(k) <= 31
  {
    Carry(k, 12);
    YearLength(k / 12);
    if (k + 1) % 12 != 0 {
      assert (k + 1) / 12 == k / 12 && (k + 1) % 12 == k % 12 + 1;
    } else {
      assert (k + 1) / 12 == k / 12 + 1 && k % 12 == 11;
    }
  }

  lemma {:induction false} MonthStartIncreasing(j: int, k: int)
    requires j <= k
    ensures MonthStart(k) - MonthStart(j) >= 28 * (k - j)
    decreases k - j
  {
    hide MonthStart;
    if j < k {
      MonthStartIncreasing(j, k - 1);
      MonthLength(k - 1);
    }
  }

  /** The absolute month a day lies in: the largest `k` whose first day is not later. */
  function MonthOfDay(day: int): (k: int)
    ensures MonthStart(k) <= day < MonthStart(k + 1)
  {
    hide MonthStart;
    if MonthStart(23640) <= day then MonthAtOrAfter(day, 23640) else MonthBefore(day, 23640)
  }

  function MonthAtOrAfter(day: int, k: int): (r: int)
    requires MonthStart(k) <= day
    ensures MonthStart(r) <= day < MonthStart(r + 1)
    decreases day - MonthStart(k)
  {
    hide MonthStart;
    MonthLength(k);
    if day < MonthStart(k + 1) then k else MonthAtOrAfter(day, k + 1)
  }

  function MonthBefore(day: int, k: int): (r: int)
    requires day < MonthStart(k)
    ensures MonthStart(r) <= day < MonthStart(r + 1)
    decreases MonthStart(k) - day
  {
    hide MonthStart;
    MonthLength(k - 1);
    if MonthStart(k - 1) <= day then k - 1 else MonthBefore(day, k - 1)
  }

  lemma MonthOfDayUnique(day: int, k: int)
    requires MonthStart(k) <= day < MonthStart(k + 1)
    ensures MonthOfDay(day) == k
  {
    hide MonthStart;
    var r := MonthOfDay(day);
    if r < k {
      MonthStartIncreasing(r + 1, k);
    } else if k < r {
      MonthStartIncreasing(k + 1, r);
    }
  }

  // ---- reading a time value ---------------------------------------------

  function Day(t: Time): int { t / MS_PER_DAY }

  function TimeInDay(t: Time): (r: int)
    ensures 0 <= r < MS_PER_DAY
  {
    t % MS_PER_DAY
  }

  /** Absolute month of a time value: getFullYear() is its quotient by 12, getMonth() the remainder. */
  function AbsMonth(t: Time): int { MonthOfDay(Day(t)) }

  function FullYear(t: Time): int { AbsMonth(t) / 12 }

  function Month(t: Time): int { AbsMonth(t) % 12 }

  function DateOfMonth(t: Time): (d: int)
    ensures 1 <= d <= 31
  {
    hide MonthStart;
    MonthLength(AbsMonth(t));
    Day(t) - MonthStart(AbsMonth(t)) + 1
  }

  /** getDay(): 0 is Sunday; the epoch fell on a Thursday. */
  function WeekDay(t: Time): (w: int)
    ensures 0 <= w < 7
  {
    (Day(t) + 4) % 7
  }

  // ---- building a time value --------------------------------------------

  function MakeTime(day: int, timeInDay: int): Time { day * MS_PER_DAY + timeInDay }

  lemma MakeTimeParts(day: int, timeInDay: int)
    requires 0 <= timeInDay < MS_PER_DAY
    ensures Day(MakeTime(day, timeInDay)) == day
    ensures TimeInDay(MakeTime(day, timeInDay)) == timeInDay
  {
  }

  /** setMonth/setFullYear keep the day of the month and let it run over into the next month. */
  function MonthAndDate(k: int, date: int): int { MonthStart(k) + date - 1 }

  /** d.setDate(d.getDate() + n) */
  function AddDays(t: Time, n: int): Time {
    MakeTime(MonthAndDate(AbsMonth(t), DateOfMonth(t) + n), TimeInDay(t))
  }

  /** d.setMonth(d.getMonth() + n) */
  function AddMonths(t: Time, n: int): Time {
    MakeTime(MonthAndDate(AbsMonth(t) + n, DateOfMonth(t)), TimeInDay(t))
  }

  /** d.setFullYear(d.getFullYear() + n) */
  function AddYears(t: Time, n: int): Time {
    AddMonths(t, 12 * n)
  }

  /** d.setHours(0, 0, 0, 0) */
  function StartOfDay(t: Time): Time { MakeTime(Day(t), 0) }

  /** d.setHours(23, 59, 59, 999) */
  function EndOfDay(t: Time): Time { MakeTime(Day(t), MS_PER_DAY - 1) }

  /** MakeFullYear: the Date constructor reads the years 0 to 99 as 1900 to 1999. */
  function ConstructorYear(y: int): int {
    if 0 <= y <= 99 then 1900 + y else y
  }

  /** new Date(y, m, d): midnight of that day, `m` and `d` out of range allowed. */
  function DateConstructor(y: int, m: int, d: int): Time {
    MakeTime(MonthAndDate(12 * ConstructorYear(y) + m, d), 0)
  }

  lemma AddDaysIsDays(t: Time, n: int)
    ensures AddDays(t, n) == t + n * MS_PER_DAY
  {
    assert t == Day(t) * MS_PER_DAY + TimeInDay(t);
    assert (Day(t) + n) * MS_PER_DAY == Day(t) * MS_PER_DAY + n * MS_PER_DAY;
  }

  /** Moving by months is strictly monotone in the number of months, overflow of the day included. */
  lemma AddMonthsIncreasing(t: Time, m: int, n: int)
    requires m < n
    ensures AddMonths(t, m) < AddMonths(t, n)
    ensures Day(AddMonths(t, m)) < Day(AddMonths(t, n))
  {
    hide MonthStart;
    MonthStartIncreasing(AbsMonth(t) + m, AbsMonth(t) + n);
    MakeTimeParts(MonthAndDate(AbsMonth(t) + m, DateOfMonth(t)), TimeInDay(t));
    MakeTimeParts(MonthAndDate(AbsMonth(t) + n, DateOfMonth(t)), TimeInDay(t));
  }

  lemma AddZeroMonths(t: Time)
    ensures AddMonths(t, 0) == t
  {
  }

  /** On the first of a month nothing runs over: the first of the month `n` later. */
  lemma AddMonthsToFirst(k: int, n: int)
    ensures AbsMonth(MakeTime(MonthStart(k), 0)) == k
    ensures AddMonths(MakeTime(MonthStart(k), 0), n) == MakeTime(MonthStart(k + n), 0)
  {
    hide MonthStart;
    MakeTimeParts(MonthStart(k), 0);
    MonthLength(k);
    MonthOfDayUnique(MonthStart(k), k);
  }

  /**
    Where moving by months lands: on the same day of the target month when it
    has one, otherwise in the month after, on the excess day; at the same time.
   */
  lemma AddMonthsLands(t: Time, n: int)
    ensures var next, target := AddMonths(t, n), AbsMonth(t) + n;
            var length := MonthStart(target + 1) - MonthStart(target);
            && TimeInDay(next) == TimeInDay(t)
            && if DateOfMonth(t) <= length
               then AbsMonth(next) == target && DateOfMonth(next) == DateOfMonth(t)
               else AbsMonth(next) == target + 1 && DateOfMonth(next) == DateOfMonth(t) - length
  {
    hide MonthStart;
    var next, target := AddMonths(t, n), AbsMonth(t) + n;
    MakeTimeParts(MonthAndDate(target, DateOfMonth(t)), TimeInDay(t));
    MonthLength(target);
    MonthLength(target + 1);
    if DateOfMonth(t) <= MonthStart(target + 1) - MonthStart(target) {
      MonthOfDayUnique(Day(next), target);
    } else {
      MonthOfDayUnique(Day(next), target + 1);
    }
  }

  lemma MonthSplit(year: int, month: int)
    requires 0 <= month < 12
    ensures (12 * year + month) / 12 == year && (12 * year + month) % 12 == month
  {
  }

  /** The civil calendar: how long each month of each year is, counted from 0 for January. */
  lemma MonthLengths(year: int, month: int)
    requires 0 <= month < 12
    ensures var length := MonthStart(12 * year + month + 1) - MonthStart(12 * year + month);
            && (month in {0, 2, 4, 6, 7, 9, 11} ==> length == 31)
            && (month in {3, 5, 8, 10} ==> length == 30)
            && (month == 1 && (year % 400 == 0 || (year % 4 == 0 && year % 100 != 0)) ==> length == 29)
            && (month == 1 && !(year % 400 == 0 || (year % 4 == 0 && year % 100 != 0)) ==> length == 28)
  {
    YearLength(year);
    LeapMeans(year);
    MonthSplit(year, month);
    if month < 11 {
      MonthSplit(year, month + 1);
    } else {
      MonthSplit(year + 1, 0);
    }
    hide DayFromYear, Leap;
  }

  lemma LeapMeans(year: int)
    ensures Leap(year) <==> year % 400 == 0 || (year % 4 == 0 && year % 100 != 0)
  {
    if year % 400 == 0 {
      Quotient(year, 4, 100 * (year / 400), 0);
    }
  }

  /** Where it is anchored: the epoch is Thursday, 1 January 1970. */
  lemma EpochIsThursday()
    ensures FullYear(0) == 1970 && Month(0) == 0 && DateOfMonth(0) == 1 && WeekDay(0) == 4
  {
    assert MonthStart(23640) == 0 && MonthStart(23641) == 31;
    MonthOfDayUnique(0, 23640);
    hide MonthStart, MonthOfDay;
  }
}
