/**
 * Calendar dates of the ISO calendar, as `java.time.LocalDate` holds them, and the
 * whole-years count of `Period.between(start, end).getYears()`.
 */
module Dates {

  datatype LocalDate = LocalDate(year: int, month: int, day: int)

  predicate IsLeapYear(year: int) {
    year % 4 == 0 && (year % 100 != 0 || year % 400 == 0)
  }

  function LengthOfMonth(year: int, month: int): (n: int)
    requires 1 <= month <= 12
    ensures 28 <= n <= 31
  {
    if month == 2 then (if IsLeapYear(year) then 29 else 28)
    else if month == 4 || month == 6 || month == 9 || month == 11 then 30
    else 31
  }

  predicate IsValidDate(d: LocalDate) {
    1 <= d.month <= 12 && 1 <= d.day <= LengthOfMonth(d.year, d.month)
  }

  /** A `LocalDate` object always denotes an existing day. */
  type Date = d: LocalDate | IsValidDate(d) witness LocalDate(1970, 1, 1)

  /**
   * `a.isBefore(b)`, which `@Past` uses against today: chronological order, year
   * first, then month, then day. It is strict, and it orders dates by their count
   * of months since year 0 first and by their day of the month second.
   */
  predicate IsBefore(a: Date, b: Date)
    ensures IsBefore(a, b) ==> a != b
    ensures IsBefore(a, b) <==>
      ProlepticMonth(a) < ProlepticMonth(b)
      || (ProlepticMonth(a) == ProlepticMonth(b) && a.day < b.day)
  {
    a.year < b.year
    || (a.year == b.year && (a.month < b.month || (a.month == b.month && a.day < b.day)))
  }

  /** The day of the year of `a` comes before that of `b`, whatever the years. */
  predicate MonthDayBefore(a: Date, b: Date) {
    a.month < b.month || (a.month == b.month && a.day < b.day)
  }

  /** Months since year 0, as `LocalDate.getProlepticMonth`. */
  function ProlepticMonth(d: Date): int {
    d.year * 12 + d.month - 1
  }

  /** Java's integer division, which truncates toward zero. */
  function TruncDiv(a: int, b: int): int
    requires b > 0
  {
    if a >= 0 then a / b else -((-a) / b)
  }

  /**
   * `Period.between(start, end).getYears()`: the month difference, less one when the
   * day of the month has not been reached yet (or more than one when going backwards),
   * divided by twelve toward zero.
   */
  function YearsBetween(start: Date, end: Date): (years: int)
    ensures start == end ==> years == 0
    ensures !IsBefore(end, start) ==> years >= 0
    ensures IsBefore(end, start) ==> years <= 0
  {
    var totalMonths := ProlepticMonth(end) - ProlepticMonth(start);
    var days := end.day - start.day;
    var months :=
      if totalMonths > 0 && days < 0 then totalMonths - 1
      else if totalMonths < 0 && days > 0 then totalMonths + 1
      else totalMonths;
    TruncDiv(months, 12)
  }

  /**
   * For a start date on or before the end date, the count is the difference of the
   * years, less one when the end date's month and day precede the start date's.
   */
  lemma WholeYears(birth: Date, today: Date)
    requires !IsBefore(today, birth)
    ensures YearsBetween(birth, today)
      == today.year - birth.year - (if MonthDayBefore(today, birth) then 1 else 0)
    ensures YearsBetween(birth, today) >= 0
  {
    // The adjusted month count is 12 * (the claimed years) + r with 0 <= r < 12,
    // so its division by twelve is exact on the claimed years.
  }

  /** Swapping the two dates negates the count. */
  lemma YearsBetweenAntisymmetric(a: Date, b: Date)
    ensures YearsBetween(a, b) == -YearsBetween(b, a)
  {
    // Both the month count and the day difference change sign, so the one-month
    // adjustment does too, and division toward zero keeps the sign change.
  }

  /** A start date after the end date gives a count of zero or less. */
  lemma FutureYears(birth: Date, today: Date)
    requires IsBefore(today, birth)
    ensures YearsBetween(birth, today) <= 0
  {
    WholeYears(today, birth);
    YearsBetweenAntisymmetric(birth, today);
  }
}
