/**
 * Calendar dates as Python's `datetime` holds them after `strptime(..., '%Y-%m-%d')`
 * (midnight of a proleptic Gregorian day), and the year shift `d + relativedelta(years=k)`.
 */
module Calendar {
  import opened Wrappers

  /** A calendar day; `ValidDate` says which triples are real dates. */
  datatype Date = Date(year: int, month: int, day: int)

  /** The year range of Python's `datetime` (MINYEAR and MAXYEAR). */
  const MinYear: int := 1
  const MaxYear: int := 9999

  predicate IsLeapYear(y: int) {
    y % 4 == 0 && (y % 100 != 0 || y % 400 == 0)
  }

  /** Number of days of month `m` in year `y`, as `calendar.monthrange(y, m)[1]`. */
  function DaysInMonth(y: int, m: int): (n: int)
    requires 1 <= m <= 12
    ensures 28 <= n <= 31
    ensures n == 29 <==> (m == 2 && IsLeapYear(y))
  {
    if m == 2 then (if IsLeapYear(y) then 29 else 28)
    else if m == 4 || m == 6 || m == 9 || m == 11 then 30
    else 31
  }

  predicate ValidDate(d: Date) {
    MinYear <= d.year <= MaxYear && 1 <= d.month <= 12 && 1 <= d.day <= DaysInMonth(d.year, d.month)
  }

  /** Strict chronological order of days (the order `<` on `datetime` values at midnight). */
  predicate Before(a: Date, b: Date) {
    a.year < b.year || (a.year == b.year && (a.month < b.month || (a.month == b.month && a.day < b.day)))
  }

  /**
   * `d + relativedelta(years=k)`: the same month and day `k` years later, with the day clamped to the
   * length of the month (29 February becomes 28 February in a common year); `None` when the resulting
   * year is outside the range `datetime` accepts, where Python raises `ValueError`.
   */
  function ShiftYears(d: Date, years: int): (r: Option<Date>)
    requires ValidDate(d)
    ensures r.Some? <==> MinYear <= d.year + years <= MaxYear
    ensures r.Some? ==> ValidDate(r.value) && r.value.year == d.year + years && r.value.month == d.month
    ensures r.Some? ==> r.value.day <= d.day
  {
    var y := d.year + years;
    if MinYear <= y <= MaxYear then
      var last := DaysInMonth(y, d.month);
      Some(Date(y, d.month, if d.day <= last then d.day else last))
    else
      None
  }

  /** Shifting by a whole number of years keeps the day except when it turns 29 February into 28 February. */
  lemma ShiftKeepsDayUnlessLeapDay(d: Date, years: int)
    requires ValidDate(d) && ShiftYears(d, years).Some?
    ensures ShiftYears(d, years).value.day == d.day
            || (d.month == 2 && d.day == 29 && ShiftYears(d, years).value.day == 28 && !IsLeapYear(d.year + years))
  {
  }

  /** Shifting is strictly increasing in the number of years: a later shift is a later day. */
  lemma ShiftStrictlyIncreasing(d: Date, j: int, k: int)
    requires ValidDate(d) && j < k
    requires ShiftYears(d, j).Some? && ShiftYears(d, k).Some?
    ensures Before(ShiftYears(d, j).value, ShiftYears(d, k).value)
  {
  }

  /** A shift of a day other than 29 February is undone by the opposite shift. */
  lemma ShiftRoundTrip(d: Date, years: int)
    requires ValidDate(d) && !(d.month == 2 && d.day == 29)
    requires ShiftYears(d, years).Some?
    ensures ShiftYears(ShiftYears(d, years).value, -years) == Some(d)
  {
  }
}
