/** `BookingDatesValidator`: the class-level rule on a request's dates. */
module BookingDatesValidator {
  import opened Outcomes
  import opened Dates

  /** The message the `@ValidBookingDates` constraint reports, whatever the cause. */
  const DurationMessage: string := "Reservation duration cannot exceed 30 days"

  /** The longest rental, in days counted inclusively. */
  const MaxRentalDays := 30

  /** `isValid`: both dates present, start not after end, and at most 30 days
      counting both ends. */
  function IsValid(start: Option<LocalDate>, end: Option<LocalDate>): (r: bool)
    ensures r <==> start.Some? && end.Some?
                   && EpochDay(start.value) <= EpochDay(end.value)
                   && EpochDay(end.value) - EpochDay(start.value) < MaxRentalDays
  {
    if start.None? || end.None? then false
    else if IsAfter(start.value, end.value) then
      EpochDayOrder(end.value, start.value);
      false
    else
      EpochDayOrder(end.value, start.value);
      DaysBetween(start.value, end.value) + 1 <= MaxRentalDays
  }

  /** A one-day rental, a 30-day rental and a 31-day rental. */
  lemma DurationExamples()
    ensures IsValid(Some(Date(2025, 11, 7)), Some(Date(2025, 11, 7)))
    ensures IsValid(Some(Date(2025, 1, 1)), Some(Date(2025, 1, 30)))
    ensures !IsValid(Some(Date(2025, 1, 1)), Some(Date(2025, 1, 31)))
    ensures !IsValid(Some(Date(2025, 11, 11)), Some(Date(2025, 11, 7)))
  {
  }

  /** The rule by calendar: the end is on or after the start and before the
      day that is thirty days after it. */
  lemma ValidMeansOrderedWithinThirty(start: LocalDate, end: LocalDate)
    ensures IsValid(Some(start), Some(end)) <==> !IsBefore(end, start) && DaysBetween(start, end) <= 29
  {
    EpochDayOrder(end, start);
  }
}
