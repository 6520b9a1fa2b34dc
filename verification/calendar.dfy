// The months that AI usage is metered by: `_month_bounds` of
// app/modules/ai/service.py over the proleptic Gregorian calendar.
module Calendar {
  // A day in microseconds, the resolution of the source's clock.
  const DAY: int := 86_400_000_000

  predicate IsLeap(year: int) {
    year % 4 == 0 && (year % 100 != 0 || year % 400 == 0)
  }

  // Months are numbered from 0, January of year 1.
  function YearOf(month: nat): int {
    month / 12 + 1
  }

  function DaysIn(month: nat): (days: int)
    ensures 28 <= days <= 31
  {
    match month % 12
    case 1 => if IsLeap(YearOf(month)) then 29 else 28
    case 3 => 30
    case 5 => 30
    case 8 => 30
    case 10 => 30
    case _ => 31
  }

  // The first day of a month, as days since the first day of month 0.
  function FirstDay(month: nat): (day: nat)
    ensures month <= day
  {
    if month == 0 then 0 else FirstDay(month - 1) + DaysIn(month - 1)
  }

  // The month that contains a day.
  function MonthOf(day: nat): (month: nat)
    ensures FirstDay(month) <= day < FirstDay(month + 1)
  {
    if day == 0 then 0
    else
      var before := MonthOf(day - 1);
      if day < FirstDay(before + 1) then before else before + 1
  }

  lemma {:induction false} FirstDayMonotone(m: nat, n: nat)
    requires m <= n
    ensures FirstDay(m) + 28 * (n - m) <= FirstDay(n)
  {
    if m < n {
      FirstDayMonotone(m, n - 1);
    }
  }

  // Every day lies in exactly one month.
  lemma MonthIsUnique(day: nat, month: nat)
    ensures MonthOf(day) == month <==> FirstDay(month) <= day < FirstDay(month + 1)
  {
    var m := MonthOf(day);
    if m < month {
      FirstDayMonotone(m + 1, month);
    } else if month < m {
      FirstDayMonotone(month + 1, m);
    }
  }

  // Day 1 of the month that `day` lies in: datetime.replace(day=1).
  function ReplaceDay1(day: nat): nat {
    FirstDay(MonthOf(day))
  }

  // _month_bounds
  function MonthBounds(now: nat): (int, int) {
    var start := ReplaceDay1(now / DAY);
    (start * DAY, ReplaceDay1(start + 32) * DAY)
  }

  // Thirty-two days after the first of a month lies in the next month, in every
  // month of every year.
  lemma NextMonth(month: nat)
    ensures ReplaceDay1(FirstDay(month) + 32) == FirstDay(month + 1)
  {
    assert FirstDay(month + 2) == FirstDay(month + 1) + DaysIn(month + 1);
    MonthIsUnique(FirstDay(month) + 32, month + 1);
  }

  // The instants from the start of day `first` to the start of day `next`.
  lemma InstantsOfDays(now: nat, first: nat, next: nat)
    ensures first * DAY <= now < next * DAY <==> first <= now / DAY < next
  {
  }

  lemma BoundsOfMonth(now: nat)
    ensures var m := MonthOf(now / 86_400_000_000);
            MonthBounds(now) == (FirstDay(m) * 86_400_000_000, FirstDay(m + 1) * 86_400_000_000)
  {
    var m := MonthOf(now / DAY);
    NextMonth(m);
    assert ReplaceDay1(now / DAY) == FirstDay(m);
  }

  lemma InstantsOfMonth(now: nat, other: nat)
    ensures MonthBounds(now).0 <= other < MonthBounds(now).1 <==> MonthOf(other / DAY) == MonthOf(now / DAY)
  {
    var m := MonthOf(now / DAY);
    BoundsOfMonth(now);
    InstantsOfDays(other, FirstDay(m), FirstDay(m + 1));
    MonthIsUnique(other / DAY, m);
  }

  lemma BoundsIdentifyMonth(m: nat, n: nat)
    ensures FirstDay(m) == FirstDay(n) <==> m == n
  {
    if m < n {
      FirstDayMonotone(m, n);
    } else {
      FirstDayMonotone(n, m);
    }
  }

  lemma WholeDay(day: nat)
    ensures day * DAY / DAY == day
  {
  }

  lemma BoundsOfFirstDay(m: nat)
    ensures MonthBounds(FirstDay(m) * DAY).0 == FirstDay(m) * DAY
  {
    WholeDay(FirstDay(m));
    FirstDayMonotone(m, m + 1);
    MonthIsUnique(FirstDay(m), m);
    BoundsOfMonth(FirstDay(m) * DAY);
  }

  // The metering intervals tile the calendar: the instants of an interval are
  // exactly those that are metered in it, and the next interval starts where
  // it ends.
  lemma MonthsTile(now: nat, other: nat)
    ensures MonthBounds(now).0 <= other < MonthBounds(now).1 <==> MonthBounds(other) == MonthBounds(now)
    ensures MonthBounds(now).1 >= 0 && MonthBounds(MonthBounds(now).1).0 == MonthBounds(now).1
  {
    InstantsOfMonth(now, other);
    SameBoundsSameMonth(now, other);
    BoundsOfMonth(now);
    BoundsOfFirstDay(MonthOf(now / DAY) + 1);
  }

  lemma SameBoundsSameMonth(now: nat, other: nat)
    ensures MonthBounds(other) == MonthBounds(now) <==> MonthOf(other / DAY) == MonthOf(now / DAY)
  {
    BoundsOfMonth(now);
    BoundsOfMonth(other);
    BoundsIdentifyMonth(MonthOf(now / DAY), MonthOf(other / DAY));
  }

  // Twelve months make a Gregorian year: the day count agrees with the closed
  // formula of the calendar's 400-year cycle.
  lemma {:induction false} YearsFollowGregorianRule(years: nat)
    ensures FirstDay(12 * years) == 365 * years + years / 4 - years / 100 + years / 400
  {
    if years > 0 {
      YearsFollowGregorianRule(years - 1);
      YearLength(years);
      LeapYearStep(years);
    }
  }

  lemma YearLength(year: nat)
    requires year > 0
    ensures FirstDay(12 * year) == FirstDay(12 * (year - 1)) + 365 + (if IsLeap(year) then 1 else 0)
  {
    DaysBefore(12 * (year - 1), year, 12);
    assert StartInYear(12, true) == 366 && StartInYear(12, false) == 365;
  }

  lemma LeapYearStep(year: nat)
    requires year > 0
    ensures year / 4 - year / 100 + year / 400
         == (year - 1) / 4 - (year - 1) / 100 + (year - 1) / 400 + (if IsLeap(year) then 1 else 0)
  {
    assert year / 4 == (year - 1) / 4 + (if year % 4 == 0 then 1 else 0);
    assert year / 100 == (year - 1) / 100 + (if year % 100 == 0 then 1 else 0);
    assert year / 400 == (year - 1) / 400 + (if year % 400 == 0 then 1 else 0);
    CenturiesNest(year);
  }

  lemma CenturiesNest(year: nat)
    ensures year % 100 == 0 ==> year % 4 == 0
    ensures year % 400 == 0 ==> year % 100 == 0
  {
    var q, r := year / 100, year % 100;
    assert year == 100 * q + r;
    assert year == 4 * (25 * q) + r;
    var t, v := year / 400, year % 400;
    assert year == 100 * (4 * t) + v;
  }

  // The length of the month at position `j` of the year.
  function LengthAt(j: nat, leap: bool): int {
    if j == 1 then (if leap then 29 else 28)
    else if j == 3 || j == 5 || j == 8 || j == 10 then 30
    else 31
  }

  lemma MonthLength(m: nat, year: nat, j: nat)
    requires m % 12 == 0 && YearOf(m) == year && j < 12
    ensures FirstDay(m + j + 1) == FirstDay(m + j) + LengthAt(j, IsLeap(year))
  {
    var q := m / 12;
    assert m == 12 * q && m + j == 12 * q + j;
    assert (m + j) % 12 == j && (m + j) / 12 == q;
  }

  // The day of the year, from 0, on which the month at position `j` starts.
  function StartInYear(j: nat, leap: bool): int {
    if j == 0 then 0 else StartInYear(j - 1, leap) + LengthAt(j - 1, leap)
  }

  lemma {:induction false} DaysBefore(m: nat, year: nat, j: nat)
    requires m % 12 == 0 && YearOf(m) == year && j <= 12
    ensures FirstDay(m + j) == FirstDay(m) + StartInYear(j, IsLeap(year))
  {
    if j > 0 {
      DaysBefore(m, year, j - 1);
      MonthLength(m, year, j - 1);
    }
  }
}
