/** Python `datetime` validity and ordering for the six fields of a
    log-folder timestamp (no microseconds, no time zone). */
module Timestamp {

  const MinYear := 1
  const MaxYear := 9999

  datatype DateTime = DateTime(year: int, month: int, day: int, hour: int, minute: int, second: int)

  /** The proleptic Gregorian leap-year rule. */
  predicate IsLeapYear(y: int) {
    y % 4 == 0 && (y % 100 != 0 || y % 400 == 0)
  }

  function DaysInMonth(y: int, m: int): (n: int)
    requires 1 <= m <= 12
    ensures 28 <= n <= 31
    ensures n == 29 <==> m == 2 && IsLeapYear(y)
  {
    if m == 2 then (if IsLeapYear(y) then 29 else 28)
    else if m == 4 || m == 6 || m == 9 || m == 11 then 30
    else 31
  }

  /** What `datetime(year, month, day, hour, minute, second)` accepts
      without raising `ValueError`. */
  predicate Valid(d: DateTime) {
    && MinYear <= d.year <= MaxYear
    && 1 <= d.month <= 12
    && 1 <= d.day <= DaysInMonth(d.year, d.month)
    && 0 <= d.hour < 24
    && 0 <= d.minute < 60
    && 0 <= d.second < 60
  }

  /** Chronological order of datetimes: field by field, most significant first. */
  predicate Before(a: DateTime, b: DateTime) {
    || a.year < b.year
    || (a.year == b.year && a.month < b.month)
    || (a.year == b.year && a.month == b.month && a.day < b.day)
    || (a.year == b.year && a.month == b.month && a.day == b.day && a.hour < b.hour)
    || (a.year == b.year && a.month == b.month && a.day == b.day && a.hour == b.hour && a.minute < b.minute)
    || (a.year == b.year && a.month == b.month && a.day == b.day && a.hour == b.hour && a.minute == b.minute
        && a.second < b.second)
  }

  /** `Before` is a strict total order. */
  lemma BeforeStrictTotal(a: DateTime, b: DateTime, c: DateTime)
    ensures !Before(a, a)
    ensures Before(a, b) ==> !Before(b, a)
    ensures a != b ==> Before(a, b) || Before(b, a)
    ensures Before(a, b) && Before(b, c) ==> Before(a, c)
  {
  }

  /** Year 0 and impossible calendar days are rejected; leap days only in leap years. */
  lemma CalendarExamples()
    ensures !Valid(DateTime(0, 1, 1, 0, 0, 0))
    ensures !Valid(DateTime(2023, 2, 29, 0, 0, 0)) && Valid(DateTime(2024, 2, 29, 0, 0, 0))
    ensures !Valid(DateTime(1900, 2, 29, 0, 0, 0)) && Valid(DateTime(2000, 2, 29, 23, 59, 59))
    ensures !Valid(DateTime(2024, 4, 31, 0, 0, 0)) && !Valid(DateTime(2024, 1, 1, 24, 0, 0))
  {
  }
}
