/** Publication dates. Every date the scraper produces has day resolution and
    UTC attached, so two dates compare exactly as their (year, month, day)
    triples compare lexicographically. */
module Dates {

  /** Midnight UTC of one calendar day. */
  datatype Date = Date(year: int, month: int, day: int)

  /** `a` is no later than `b` (Python's `a <= b` on aware datetimes in one zone). */
  predicate NotAfter(a: Date, b: Date)
  {
    || a.year < b.year
    || (a.year == b.year && a.month < b.month)
    || (a.year == b.year && a.month == b.month && a.day <= b.day)
  }

  /** `a` is strictly later than `b`. */
  predicate Later(a: Date, b: Date)
  {
    !NotAfter(a, b)
  }
}
