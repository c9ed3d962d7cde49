/** Calendar dates as proleptic Gregorian day ordinals, the numbering of
    Python's `date.toordinal()` (0001-01-01 is day 1). */
module Dates {

  type Date = int

  predicate IsLeapYear(y: int) {
    y % 4 == 0 && (y % 100 != 0 || y % 400 == 0)
  }

  function DaysInMonth(y: int, m: int): int
    requires 1 <= m <= 12
  {
    if m == 2 then (if IsLeapYear(y) then 29 else 28)
    else if m == 4 || m == 6 || m == 9 || m == 11 then 30
    else 31
  }

  function DaysBeforeMonth(y: int, m: int): int
    requires 1 <= m <= 12
    decreases m
  {
    if m == 1 then 0 else DaysBeforeMonth(y, m - 1) + DaysInMonth(y, m - 1)
  }

  /** Python's `date(y, m, d).toordinal()`. */
  function ToOrdinal(y: int, m: int, d: int): Date
    requires y >= 1 && 1 <= m <= 12 && 1 <= d <= DaysInMonth(y, m)
  {
    var p := y - 1;
    p * 365 + p / 4 - p / 100 + p / 400 + DaysBeforeMonth(y, m) + d
  }

  /** Python's `date.weekday()`: 0 is Monday, 6 is Sunday. */
  function Weekday(d: Date): (w: int)
    ensures 0 <= w <= 6
  {
    (d + 6) % 7
  }

  /** The sentinel service date that marks a permanent menu entry: 1900-01-01. */
  const PermanentServiceDate: Date := 693596

  lemma PermanentServiceDateIsNewYear1900()
    ensures ToOrdinal(1900, 1, 1) == PermanentServiceDate
    ensures Weekday(PermanentServiceDate) == 0
  {
  }

  /** Weekdays repeat every seven days. */
  lemma WeekdayPeriodic(d: Date)
    ensures Weekday(d + 7) == Weekday(d)
  {
  }
}
