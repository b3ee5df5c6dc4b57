/** Calendar dates as stored in the `expense_date` column, compared the way
    the database orders them. Calendar validity (month 1..12, day within the
    month) is guaranteed by Python's `date` type and is not re-modelled. */
module Dates {

  datatype Date = Date(year: int, month: int, day: int)

  /** `a <= b` on dates: year first, then month, then day. */
  predicate OnOrBefore(a: Date, b: Date) {
    a.year < b.year
    || (a.year == b.year && (a.month < b.month || (a.month == b.month && a.day <= b.day)))
  }

  lemma OnOrBeforeTotal(a: Date, b: Date)
    ensures OnOrBefore(a, b) || OnOrBefore(b, a)
  {
  }

  lemma OnOrBeforeTransitive(a: Date, b: Date, c: Date)
    requires OnOrBefore(a, b) && OnOrBefore(b, c)
    ensures OnOrBefore(a, c)
  {
  }

  lemma OnOrBeforeAntisymmetric(a: Date, b: Date)
    requires OnOrBefore(a, b) && OnOrBefore(b, a)
    ensures a == b
  {
  }
}
