/**
 * The proleptic Gregorian calendar by its definition: the leap year rule of Appendix C and the month
 * lengths of section 5.7 of RFC 3339, counted from 1970-01-01.
 */
module Gregorian {
  datatype Date = Date(year: int, month: int, day: int)

  predicate IsLeap(year: int) {
    year % 4 == 0 && (year % 100 != 0 || year % 400 == 0)
  }

  function YearLength(year: int): int {
    if IsLeap(year) then 366 else 365
  }

  function MonthLength(year: int, month: int): int
    requires 1 <= month <= 12
  {
    if month == 2 then (if IsLeap(year) then 29 else 28)
    else if month == 4 || month == 6 || month == 9 || month == 11 then 30
    else 31
  }

  predicate IsValid(date: Date) {
    1 <= date.month <= 12 && 1 <= date.day <= MonthLength(date.year, date.month)
  }

  /** Days from 1970-01-01 to the first day of the year. */
  function DaysToYear(year: int): int
    decreases if year >= 1970 then year - 1970 else 1970 - year
  {
    if year == 1970 then 0
    else if year > 1970 then DaysToYear(year - 1) + YearLength(year - 1)
    else DaysToYear(year + 1) - YearLength(year)
  }

  /** Days from the first day of the year to the first day of the month. */
  function DaysToMonth(year: int, month: int): int
    requires 1 <= month <= 12
  {
    if month == 1 then 0 else DaysToMonth(year, month - 1) + MonthLength(year, month - 1)
  }

  /** Days from 1970-01-01 to the date. */
  function DayNumber(date: Date): int
    requires IsValid(date)
  {
    DaysToYear(date.year) + DaysToMonth(date.year, date.month) + date.day - 1
  }

  predicate Earlier(a: Date, b: Date) {
    || a.year < b.year
    || (a.year == b.year && a.month < b.month)
    || (a.year == b.year && a.month == b.month && a.day < b.day)
  }

  function NextDay(date: Date): (next: Date)
    requires IsValid(date)
    ensures IsValid(next)
  {
    if date.day < MonthLength(date.year, date.month) then date.(day := date.day + 1)
    else if date.month < 12 then Date(date.year, date.month + 1, 1)
    else Date(date.year + 1, 1, 1)
  }

  // ----- Properties of the definition -----

  lemma {:induction false} DaysToYearInClosedForm(year: int)
    ensures DaysToYear(year) == 365 * (year - 1970) + (year - 1) / 4 - (year - 1) / 100 + (year - 1) / 400 - 477
    decreases if year >= 1970 then year - 1970 else 1970 - year
  {
    if year > 1970 {
      DaysToYearInClosedForm(year - 1);
      LeapDays(year - 1);
    } else if year < 1970 {
      DaysToYearInClosedForm(year + 1);
      LeapDays(year);
    }
  }

  lemma LeapDays(year: int)
    ensures (if IsLeap(year) then 1 else 0)
      == (year / 4 - (year - 1) / 4) - (year / 100 - (year - 1) / 100) + (year / 400 - (year - 1) / 400)
  {
    Quotients(year, 4);
    Quotients(year, 100);
    Quotients(year, 400);
  }

  lemma Quotients(year: int, n: int)
    requires n == 4 || n == 100 || n == 400
    ensures year / n - (year - 1) / n == if year % n == 0 then 1 else 0
  {
  }

  lemma MonthsInClosedForm(year: int, month: int)
    requires 1 <= month <= 12
    ensures DaysToMonth(year, month) ==
      [0, 31, 59, 90, 120, 151, 181, 212, 243, 273, 304, 334][month - 1] + (if month > 2 && IsLeap(year) then 1 else 0)
  {
    if month > 1 {
      MonthsInClosedForm(year, month - 1);
    }
  }

  lemma YearsStep(year: int)
    ensures DaysToYear(year + 1) == DaysToYear(year) + YearLength(year)
  {
  }

  /** The next day has the next number. */
  lemma NextDayIsNext(date: Date)
    requires IsValid(date)
    ensures DayNumber(NextDay(date)) == DayNumber(date) + 1
  {
    YearsStep(date.year);
    MonthsInClosedForm(date.year, 12);
  }

  lemma {:induction false} YearsAreOrdered(a: int, b: int)
    requires a < b
    ensures DaysToYear(a) + YearLength(a) <= DaysToYear(b)
    decreases b - a
  {
    if a + 1 == b {
      YearsStep(a);
    } else {
      YearsAreOrdered(a, b - 1);
      YearsStep(b - 1);
    }
  }

  lemma DayOfYear(date: Date)
    requires IsValid(date)
    ensures 0 <= DaysToMonth(date.year, date.month) + date.day - 1 < YearLength(date.year)
  {
    MonthsInClosedForm(date.year, date.month);
  }

  /** An earlier date has a smaller number. */
  lemma EarlierIsSmaller(a: Date, b: Date)
    requires IsValid(a) && IsValid(b) && Earlier(a, b)
    ensures DayNumber(a) < DayNumber(b)
  {
    DayOfYear(a);
    DayOfYear(b);
    if a.year < b.year {
      YearsAreOrdered(a.year, b.year);
    } else if a.month < b.month {
      MonthsInClosedForm(a.year, a.month);
      MonthsInClosedForm(b.year, b.month);
    }
  }

  /** The day number determines the date. */
  lemma NumberDeterminesDate(a: Date, b: Date)
    requires IsValid(a) && IsValid(b) && DayNumber(a) == DayNumber(b)
    ensures a == b
  {
    if Earlier(a, b) {
      EarlierIsSmaller(a, b);
    } else if Earlier(b, a) {
      EarlierIsSmaller(b, a);
    }
  }
}
