/** Calendar dates, kept as numbers rather than the "2012-10-23" strings the source writes. */
module Calendar {

  datatype Date = Date(year: int, month: int, day: int)

  /** Chronological order: by year, then month, then day. */
  predicate OnOrBefore(a: Date, b: Date)
  {
    a.year < b.year
    || (a.year == b.year && (a.month < b.month || (a.month == b.month && a.day <= b.day)))
  }
}
