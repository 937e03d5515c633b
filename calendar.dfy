/**
 * Dates of the proleptic Gregorian calendar (ISO 8601), as `java.time.LocalDate`
 * represents them, and times of day at minute precision.
 */
module Calendar {

  datatype Date = Date(year: int, month: int, day: int)

  /** A time of day given as hours and minutes (the `HHmm` form of a lesson time). */
  datatype Time = Time(hour: int, minute: int)

  predicate IsValidTime(t: Time) {
    0 <= t.hour < 24 && 0 <= t.minute < 60
  }

  /** Gregorian rule: divisible by 4, and not by 100 unless also by 400. */
  predicate IsLeapYear(y: int) {
    y % 4 == 0 && (y % 100 != 0 || y % 400 == 0)
  }

  function DaysInMonth(y: int, m: int): (r: int)
    requires 1 <= m <= 12
    ensures 28 <= r <= 31
    ensures r == 29 <==> m == 2 && IsLeapYear(y)
    ensures r == 28 <==> m == 2 && !IsLeapYear(y)
    ensures r == 30 <==> m in {4, 6, 9, 11}
  {
    if m == 2 then (if IsLeapYear(y) then 29 else 28)
    else if m == 4 || m == 6 || m == 9 || m == 11 then 30
    else 31
  }

  /** The day exists: a month from 1 to 12 and a day within that month. */
  predicate IsValidDate(d: Date) {
    1 <= d.month <= 12 && 1 <= d.day <= DaysInMonth(d.year, d.month)
  }

  /** `a.isBefore(b)`: calendar order on dates. */
  predicate Before(a: Date, b: Date) {
    a.year < b.year
    || (a.year == b.year && (a.month < b.month || (a.month == b.month && a.day < b.day)))
  }

  /** Calendar order is a strict total order. */
  lemma BeforeIsStrictTotalOrder(a: Date, b: Date, c: Date)
    ensures !Before(a, a)
    ensures Before(a, b) ==> !Before(b, a)
    ensures Before(a, b) && Before(b, c) ==> Before(a, c)
    ensures a == b || Before(a, b) || Before(b, a)
  {
  }

  /**
   * `d.plusYears(1)`: the same month and day a year later, except that
   * 29 February becomes 28 February, the last valid day of that month.
   */
  function OneYearLater(d: Date): (r: Date)
    requires IsValidDate(d)
    ensures IsValidDate(r)
    ensures r.year == d.year + 1 && r.month == d.month
    ensures r.day == d.day || (d.month == 2 && d.day == 29 && r.day == 28)
    ensures Before(d, r)
  {
    if d.month == 2 && d.day == 29 && !IsLeapYear(d.year + 1) then Date(d.year + 1, 2, 28)
    else Date(d.year + 1, d.month, d.day)
  }

  /** 29 February is always moved, since the year after a leap year is never a leap year. */
  lemma LeapDayClamped(y: int)
    requires IsLeapYear(y)
    ensures OneYearLater(Date(y, 2, 29)) == Date(y + 1, 2, 28)
  {
  }
}
