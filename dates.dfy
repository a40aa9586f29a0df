/** Calendar instants in UTC, as the store keeps `Date` values and as `$month` reads them.
    An instant is its proleptic Gregorian date and the milliseconds since that day's midnight;
    chronological order is the lexicographic order on (year, month, day, milliseconds). */
module Dates {

  const MillisPerDay := 86400000

  datatype DateTime = DateTime(year: int, month: int, day: int, millis: int)

  predicate IsLeapYear(y: int) {
    y % 4 == 0 && (y % 100 != 0 || y % 400 == 0)
  }

  function DaysInMonth(y: int, m: int): (n: int)
    requires 1 <= m <= 12
    ensures 28 <= n <= 31
    ensures n == 31 <==> m in {1, 3, 5, 7, 8, 10, 12}
  {
    if m == 2 then (if IsLeapYear(y) then 29 else 28)
    else if m in {4, 6, 9, 11} then 30
    else 31
  }

  predicate ValidDateTime(d: DateTime) {
    && 1 <= d.month <= 12
    && 1 <= d.day <= DaysInMonth(d.year, d.month)
    && 0 <= d.millis < MillisPerDay
  }

  type UtcDate = d: DateTime | ValidDateTime(d) witness DateTime(1970, 1, 1, 0)

  /** a is strictly earlier than b. */
  predicate Before(a: DateTime, b: DateTime) {
    || a.year < b.year
    || (a.year == b.year && a.month < b.month)
    || (a.year == b.year && a.month == b.month && a.day < b.day)
    || (a.year == b.year && a.month == b.month && a.day == b.day && a.millis < b.millis)
  }

  /** a is b or earlier (the `$lte` comparison on dates). */
  predicate AtOrBefore(a: DateTime, b: DateTime) {
    a == b || Before(a, b)
  }

  /** Midnight UTC at the start of the given day: what `new Date('YYYY-MM-DD')` denotes. */
  function Midnight(y: int, m: int, d: int): (r: UtcDate)
    requires 1 <= m <= 12 && 1 <= d <= DaysInMonth(y, m)
    ensures r.year == y && r.month == m && r.day == d && r.millis == 0
  {
    DateTime(y, m, d, 0)
  }

  /** `$month`: the calendar month, 1 for January through 12 for December. */
  function MonthOf(d: UtcDate): (m: int)
    ensures 1 <= m <= 12
  {
    d.month
  }
}
