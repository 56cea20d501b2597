/** The next execution date of a standing instruction or a recurring journal. */
module StandingInstructions {
  import opened Wrappers
  import opened Calendar

  datatype Frequency = DAILY | WEEKLY | FORTNIGHTLY | MONTHLY | QUARTERLY | HALF_YEARLY | ANNUALLY | CUSTOM

  method NextExecutionDate(from: Time, frequency: Frequency, customIntervalDays: Option<int>) returns (d: Time)
    ensures d == NextDate(from, frequency, customIntervalDays)
    ensures Day(from) < Day(d) && TimeInDay(d) == TimeInDay(from)
  {
    NextDateAdvances(from, frequency, customIntervalDays);
    hide AddDays, AddMonths, Day, TimeInDay;
    d := from;
    match frequency {
      case DAILY => d := AddDays(d, 1);
      case WEEKLY => d := AddDays(d, 7);
      case FORTNIGHTLY => d := AddDays(d, 14);
      case MONTHLY => d := AddMonths(d, 1);
      case QUARTERLY => d := AddMonths(d, 3);
      case HALF_YEARLY => d := AddMonths(d, 6);
      case ANNUALLY => d := AddYears(d, 1);
      case CUSTOM => d := AddDays(d,
        if customIntervalDays.Some? && customIntervalDays.value > 0 then customIntervalDays.value else 1);
    }
  }

  /** The frequencies that count days, as a number of days; the others as a number of months. */
  function NextDate(from: Time, frequency: Frequency, customIntervalDays: Option<int>): Time {
    match frequency
    case DAILY => AddDays(from, 1)
    case WEEKLY => AddDays(from, 7)
    case FORTNIGHTLY => AddDays(from, 14)
    case CUSTOM => AddDays(from,
      if customIntervalDays.Some? && customIntervalDays.value > 0 then customIntervalDays.value else 1)
    case _ => AddMonths(from, PeriodMonths(frequency))
  }

  function PeriodMonths(frequency: Frequency): int {
    match frequency
    case MONTHLY => 1
    case QUARTERLY => 3
    case HALF_YEARLY => 6
    case ANNUALLY => 12
    case _ => 0
  }

  /** The schedule always moves on by at least a whole day, and keeps the time of day. */
  lemma NextDateAdvances(from: Time, frequency: Frequency, customIntervalDays: Option<int>)
    ensures Day(from) < Day(NextDate(from, frequency, customIntervalDays))
    ensures TimeInDay(NextDate(from, frequency, customIntervalDays)) == TimeInDay(from)
  {
    hide MonthStart;
    if PeriodMonths(frequency) > 0 {
      AddMonthsIncreasing(from, 0, PeriodMonths(frequency));
      AddZeroMonths(from);
      MakeTimeParts(MonthAndDate(AbsMonth(from) + PeriodMonths(frequency), DateOfMonth(from)), TimeInDay(from));
    } else {
      var n := if frequency.DAILY? then 1 else if frequency.WEEKLY? then 7 else if frequency.FORTNIGHTLY? then 14
               else if customIntervalDays.Some? && customIntervalDays.value > 0 then customIntervalDays.value else 1;
      MakeTimeParts(MonthAndDate(AbsMonth(from), DateOfMonth(from) + n), TimeInDay(from));
    }
  }

  /**
    Running over a month end is the only way a day of the month changes: a
    month-based period keeps it exactly when the target month is long enough,
    and otherwise lands in the month after, on the excess day.
   */
  lemma MonthRollover(from: Time, frequency: Frequency)
    requires frequency in {MONTHLY, QUARTERLY, HALF_YEARLY, ANNUALLY}
    ensures var next := NextDate(from, frequency, None);
            var months := if frequency == MONTHLY then 1 else if frequency == QUARTERLY then 3
                          else if frequency == HALF_YEARLY then 6 else 12;
            var target := AbsMonth(from) + months;
            var length := MonthStart(target + 1) - MonthStart(target);
            if DateOfMonth(from) <= length
            then AbsMonth(next) == target && DateOfMonth(next) == DateOfMonth(from)
            else AbsMonth(next) == target + 1 && DateOfMonth(next) == DateOfMonth(from) - length
  {
    hide MonthStart, AddMonths, AbsMonth, DateOfMonth;
    AddMonthsLands(from, PeriodMonths(frequency));
  }

  /** The other frequencies count days; a CUSTOM interval that is missing or not positive counts as one day. */
  lemma DayPeriods(from: Time, frequency: Frequency, customIntervalDays: Option<int>)
    requires frequency in {DAILY, WEEKLY, FORTNIGHTLY, CUSTOM}
    ensures var days := NextDate(from, frequency, customIntervalDays) - from;
            && days % MS_PER_DAY == 0 && days >= MS_PER_DAY
            && (frequency == DAILY ==> days == MS_PER_DAY)
            && (frequency == WEEKLY ==> days == 7 * MS_PER_DAY)
            && (frequency == FORTNIGHTLY ==> days == 14 * MS_PER_DAY)
            && (frequency == CUSTOM && customIntervalDays.Some? && customIntervalDays.value > 0 ==>
               days == customIntervalDays.value * MS_PER_DAY)
            && (frequency == CUSTOM && !(customIntervalDays.Some? && customIntervalDays.value > 0) ==>
               days == MS_PER_DAY)
  {
    hide AddDays;
    var n := if frequency.DAILY? then 1 else if frequency.WEEKLY? then 7 else if frequency.FORTNIGHTLY? then 14
             else if customIntervalDays.Some? && customIntervalDays.value > 0 then customIntervalDays.value else 1;
    AddDaysIsDays(from, n);
    Quotient(n * MS_PER_DAY, MS_PER_DAY, n, 0);
  }
}
