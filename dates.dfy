/** Calendar dates as `datetime.date` holds them, their order, and the field
    of a date that a grouping level is keyed on. */
module Dates {

  /** A calendar date, as `datetime.date` holds it. */
  datatype Date = Date(year: int, month: int, day: int)

  /** `datetime.MINYEAR` and `datetime.MAXYEAR`. */
  const MIN_YEAR := 1
  const MAX_YEAR := 9999

  predicate IsLeapYear(y: int) {
    y % 4 == 0 && (y % 100 != 0 || y % 400 == 0)
  }

  function DaysInMonth(y: int, m: int): int
    requires 1 <= m <= 12
  {
    if m == 2 then (if IsLeapYear(y) then 29 else 28)
    else if m == 4 || m == 6 || m == 9 || m == 11 then 30
    else 31
  }

  /** The dates `datetime.date(year, month, day)` accepts. */
  predicate ValidDate(d: Date) {
    && MIN_YEAR <= d.year <= MAX_YEAR
    && 1 <= d.month <= 12
    && 1 <= d.day <= DaysInMonth(d.year, d.month)
  }

  /** Chronological order: `a` is not later than `b`. */
  predicate DateLe(a: Date, b: Date) {
    || a.year < b.year
    || (a.year == b.year && a.month < b.month)
    || (a.year == b.year && a.month == b.month && a.day <= b.day)
  }

  /** Newest first, the order in which the blog lists its posts. */
  predicate SortedDescending(s: seq<Date>) {
    forall i, j :: 0 <= i < j < |s| ==> DateLe(s[j], s[i])
  }

  /** Newest-first dates list the years newest first. */
  lemma SortedYears(s: seq<Date>)
    requires SortedDescending(s)
    ensures forall i, j :: 0 <= i < j < |s| ==> s[i].year >= s[j].year
  {
  }

  /** Newest-first dates of one year list the months newest first. */
  lemma SortedMonths(s: seq<Date>, year: int)
    requires SortedDescending(s)
    requires forall i :: 0 <= i < |s| ==> s[i].year == year
    ensures forall i, j :: 0 <= i < j < |s| ==> s[i].month >= s[j].month
  {
  }

  /** Newest-first dates of one month list the days newest first. */
  lemma SortedDays(s: seq<Date>, year: int, month: int)
    requires SortedDescending(s)
    requires forall i :: 0 <= i < |s| ==> s[i].year == year && s[i].month == month
    ensures forall i, j :: 0 <= i < j < |s| ==> s[i].day >= s[j].day
  {
  }

  /** The attribute a `groupby` level keys on: `d.year`, `d.month`, `d.day`. */
  datatype Field = YearField | MonthField | DayField

  function Key(f: Field, d: Date): int {
    match f
    case YearField => d.year
    case MonthField => d.month
    case DayField => d.day
  }
}
