/** `java.time.LocalDate` as its epoch-day number, bounded the way java.time bounds it. */
module LocalDates {
  import opened Wrappers

  /** Epoch day of LocalDate.MIN (-999999999-01-01) and of LocalDate.MAX (+999999999-12-31). */
  const MinEpochDay: int := -365243219162
  const MaxEpochDay: int := 365241780471

  /** A calendar date, counted in days from 1970-01-01. */
  type Day = d: int | MinEpochDay <= d <= MaxEpochDay witness 0

  /** `plusDays(n)`: None stands for the DateTimeException thrown past LocalDate.MIN or MAX. */
  function PlusDays(d: Day, n: int): (r: Option<Day>)
    ensures r.Some? ==> r.value - d == n
    ensures r.None? <==> d + n > MaxEpochDay || d + n < MinEpochDay
  {
    if MinEpochDay <= d + n <= MaxEpochDay then Some(d + n) else None
  }
}
