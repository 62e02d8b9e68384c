/** Calendar dates as the (year, month, day) triple a Python `date` carries,
    and the tuple comparisons the age rule uses. */
module Dates {

  datatype Date = Date(year: int, month: int, day: int)

  /** `(a.month, a.day) < (b.month, b.day)` as Python compares tuples. */
  predicate MonthDayBefore(a: Date, b: Date) {
    a.month < b.month || (a.month == b.month && a.day < b.day)
  }

  /** `a < b` on dates: lexicographic order on (year, month, day). */
  predicate Before(a: Date, b: Date) {
    a.year < b.year || (a.year == b.year && MonthDayBefore(a, b))
  }

  /** The `n`-th anniversary of `birthday`, as a (year, month, day) triple. */
  function Anniversary(birthday: Date, n: int): Date {
    Date(birthday.year + n, birthday.month, birthday.day)
  }
}
