/** Gregorian calendar dates, and the month shift that recurring transactions
    use. The shift follows JavaScript's `Date.prototype.setMonth`: the month
    moves forward and a day of month that does not exist in the target month
    overflows into the following month (it is not clamped). The model takes
    the browser's time zone to be UTC. */
module Calendar {

  datatype CalendarDate = CalendarDate(year: int, month: int, day: int)

  predicate IsLeapYear(year: int)
  {
    (year % 4 == 0 && year % 100 != 0) || year % 400 == 0
  }

  function DaysInMonth(year: int, month: int): (n: int)
    requires 1 <= month <= 12
    ensures 28 <= n <= 31
    ensures n == 29 <==> month == 2 && IsLeapYear(year)
  {
    if month == 2 then (if IsLeapYear(year) then 29 else 28)
    else if month == 4 || month == 6 || month == 9 || month == 11 then 30
    else 31
  }

  /** A calendar date that exists: months 1 to 12, days within the month. */
  predicate IsValid(d: CalendarDate)
  {
    1 <= d.month <= 12 && 1 <= d.day <= DaysInMonth(d.year, d.month)
  }

  type Date = d: CalendarDate | IsValid(d) witness CalendarDate(1970, 1, 1)

  /** Months elapsed since January of year 0. */
  function MonthIndex(d: CalendarDate): int
  {
    d.year * 12 + d.month - 1
  }

  function YearOfIndex(index: int): int
  {
    index / 12
  }

  function MonthOfIndex(index: int): (m: int)
    ensures 1 <= m <= 12
  {
    index % 12 + 1
  }

  /** A key that orders valid dates chronologically. */
  function DateKey(d: Date): int
  {
    MonthIndex(d) * 31 + d.day - 1
  }

  /** Earlier in the calendar: by year, then month, then day. */
  predicate Before(a: CalendarDate, b: CalendarDate)
  {
    a.year < b.year || (a.year == b.year && (a.month < b.month || (a.month == b.month && a.day < b.day)))
  }

  /** Comparing keys is comparing dates, so sorting by key sorts by date. */
  lemma DateKeyOrder(a: Date, b: Date)
    ensures DateKey(a) < DateKey(b) <==> Before(a, b)
    ensures DateKey(a) == DateKey(b) <==> a == b
  {
  }

  /** `new Date(base).setMonth(base.getMonth() + i)`: the same day of month
      `i` months later, overflowing into the next month when the target
      month is too short. */
  function AddMonths(d: Date, i: nat): Date
  {
    var target := MonthIndex(d) + i;
    var y, m := YearOfIndex(target), MonthOfIndex(target);
    if d.day <= DaysInMonth(y, m) then
      CalendarDate(y, m, d.day)
    else
      var next := target + 1;
      CalendarDate(YearOfIndex(next), MonthOfIndex(next), d.day - DaysInMonth(y, m))
  }

  lemma MonthIndexRoundTrip(index: int)
    ensures MonthIndex(CalendarDate(YearOfIndex(index), MonthOfIndex(index), 1)) == index
  {
  }

  /** The shifted date is in the month `i` months later, keeping its day,
      whenever that month has the day; otherwise it is in the month after,
      on the day by which the original day overshoots the target month. */
  lemma AddMonthsLands(d: Date, i: nat)
    ensures var r := AddMonths(d, i);
            var target := MonthIndex(d) + i;
            var short := DaysInMonth(YearOfIndex(target), MonthOfIndex(target));
            && (d.day <= short ==> MonthIndex(r) == target && r.day == d.day)
            && (d.day > short ==> MonthIndex(r) == target + 1 && r.day == d.day - short && r.day <= 3)
  {
    var target := MonthIndex(d) + i;
    MonthIndexRoundTrip(target);
    MonthIndexRoundTrip(target + 1);
  }

  /** A shift by zero months is the identity on valid dates. */
  lemma AddMonthsZero(d: Date)
    ensures AddMonths(d, 0) == d
  {
    var target := MonthIndex(d);
    assert YearOfIndex(target) == d.year;
    assert MonthOfIndex(target) == d.month;
  }

  /** Days 1 to 28 exist in every month, so they are never moved. */
  lemma AddMonthsKeepsEarlyDays(d: Date, i: nat)
    requires d.day <= 28
    ensures MonthIndex(AddMonths(d, i)) == MonthIndex(d) + i
    ensures AddMonths(d, i).day == d.day
  {
    AddMonthsLands(d, i);
  }

  /** Overflow, not clamping: January 31 of 2024 shifted by one month is March 2,
      and by two months March 31, so February gets no occurrence. */
  lemma JanuaryThirtyFirstRollsOver()
    ensures AddMonths(CalendarDate(2024, 1, 31), 1) == CalendarDate(2024, 3, 2)
    ensures AddMonths(CalendarDate(2024, 1, 31), 2) == CalendarDate(2024, 3, 31)
    ensures AddMonths(CalendarDate(2023, 1, 31), 1) == CalendarDate(2023, 3, 3)
  {
  }
}
