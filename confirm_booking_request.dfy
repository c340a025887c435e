/** `ConfirmBookingRequest` and the constraints declared on it, evaluated the
    way Bean Validation does: every constraint is checked and every violation
    is collected. */
module ConfirmBookingRequests {
  import opened Outcomes
  import opened JavaText
  import opened Dates
  import opened CarSegments
  import LicenseNumberValidator
  import BookingDatesValidator

  datatype ConfirmBookingRequest = ConfirmBookingRequest(
    drivingLicenseNumber: Option<string>,
    age: int,
    startDate: Option<LocalDate>,
    endDate: Option<LocalDate>,
    carSegment: Option<CarSegment>)

  /** A broken constraint: on one field, or on the request as a whole. */
  datatype Violation =
    | FieldError(field: string, message: string)
    | GlobalError(message: string)

  const LicenseRequired := FieldError("drivingLicenseNumber", "licenseNumber is required")
  const LicenseFormat := FieldError("drivingLicenseNumber", LicenseNumberValidator.FormatMessage)
  const TooYoung := FieldError("age", "Customer must be at least 18 years old")
  const StartRequired := FieldError("startDate", "Start date is required")
  const EndRequired := FieldError("endDate", "End date is required")
  const SegmentRequired := FieldError("carSegment", "Car segment is required")
  const DatesRule := GlobalError(BookingDatesValidator.DurationMessage)

  const MinimumAge := 18

  /** `@NotBlank`: not null and not empty once trimmed. */
  predicate NotBlank(s: Option<string>) {
    s.Some? && Trim(s.value) != []
  }

  /** Every violation of the request, field constraints and the class-level
      date rule together. Only the seven declared constraints are reported;
      `EachConstraintReported` says when each of them is. */
  function Violations(req: ConfirmBookingRequest): (r: set<Violation>)
    ensures r <= {LicenseRequired, LicenseFormat, TooYoung, StartRequired, EndRequired, SegmentRequired, DatesRule}
  {
    Collect(NotBlank(req.drivingLicenseNumber), LicenseNumberValidator.IsValid(req.drivingLicenseNumber),
            req.age >= MinimumAge, req.startDate.Some?, req.endDate.Some?, req.carSegment.Some?,
            BookingDatesValidator.IsValid(req.startDate, req.endDate))
  }

  /** A well-formed license number is never blank. */
  lemma FormattedIsNotBlank(s: Option<string>)
    requires LicenseNumberValidator.IsValid(s)
    ensures NotBlank(s)
  {
    if Trim(s.value) == [] {
      TrimEmptyMeansTrimmable(s.value);
    }
  }

  /** A blank license number breaks both of its constraints. */
  lemma BlankViolatesBoth(req: ConfirmBookingRequest)
    requires !NotBlank(req.drivingLicenseNumber)
    ensures LicenseRequired in Violations(req) && LicenseFormat in Violations(req)
  {
    if LicenseNumberValidator.IsValid(req.drivingLicenseNumber) {
      FormattedIsNotBlank(req.drivingLicenseNumber);
    }
  }

  /** A missing date is reported on its field and by the class-level rule. */
  lemma MissingDateReportedTwice(req: ConfirmBookingRequest)
    requires req.startDate.None? || req.endDate.None?
    ensures DatesRule in Violations(req)
    ensures req.startDate.None? ==> StartRequired in Violations(req)
    ensures req.endDate.None? ==> EndRequired in Violations(req)
  {
  }

  /** A request is accepted exactly when its license number is well formed,
      the customer is 18 or older, a segment is given and the dates pass the
      date rule; the required-field checks add nothing beyond these. */
  lemma AcceptedIff(req: ConfirmBookingRequest)
    ensures Violations(req) == {} <==>
              && LicenseNumberValidator.IsValid(req.drivingLicenseNumber)
              && req.age >= MinimumAge
              && req.carSegment.Some?
              && BookingDatesValidator.IsValid(req.startDate, req.endDate)
  {
    if LicenseNumberValidator.IsValid(req.drivingLicenseNumber) {
      FormattedIsNotBlank(req.drivingLicenseNumber);
    }
    if Violations(req) == {} {
      assert LicenseFormat !in Violations(req);
      assert TooYoung !in Violations(req);
      assert SegmentRequired !in Violations(req);
      assert DatesRule !in Violations(req);
    }
  }

  /** Each declared violation is reported exactly when its constraint is
      broken, with the message declared on it. */
  lemma EachConstraintReported(req: ConfirmBookingRequest)
    ensures LicenseRequired in Violations(req) <==> !NotBlank(req.drivingLicenseNumber)
    ensures LicenseFormat in Violations(req) <==> !LicenseNumberValidator.IsValid(req.drivingLicenseNumber)
    ensures TooYoung in Violations(req) <==> req.age < MinimumAge
    ensures StartRequired in Violations(req) <==> req.startDate.None?
    ensures EndRequired in Violations(req) <==> req.endDate.None?
    ensures SegmentRequired in Violations(req) <==> req.carSegment.None?
    ensures DatesRule in Violations(req) <==> !BookingDatesValidator.IsValid(req.startDate, req.endDate)
  {
    var notBlank := NotBlank(req.drivingLicenseNumber);
    var formatted := LicenseNumberValidator.IsValid(req.drivingLicenseNumber);
    var datesValid := BookingDatesValidator.IsValid(req.startDate, req.endDate);
    ReportedWhenBroken(notBlank, formatted, req.age >= MinimumAge, req.startDate.Some?, req.endDate.Some?,
                       req.carSegment.Some?, datesValid);
    DatesReportedWhenBroken(notBlank, formatted, req.age >= MinimumAge, req.startDate.Some?, req.endDate.Some?,
                            req.carSegment.Some?, datesValid);
  }

  /** The shape of `Violations`: one singleton per constraint that fails. */
  function Collect(notBlank: bool, formatted: bool, adult: bool, hasStart: bool, hasEnd: bool,
                   hasSegment: bool, datesValid: bool): set<Violation>
  {
    (if notBlank then {} else {LicenseRequired})
    + (if formatted then {} else {LicenseFormat})
    + (if adult then {} else {TooYoung})
    + (if hasStart then {} else {StartRequired})
    + (if hasEnd then {} else {EndRequired})
    + (if hasSegment then {} else {SegmentRequired})
    + (if datesValid then {} else {DatesRule})
  }

  /** The license, age and segment singletons are in the collection exactly
      when their conditions fail. */
  lemma ReportedWhenBroken(notBlank: bool, formatted: bool, adult: bool, hasStart: bool, hasEnd: bool,
                           hasSegment: bool, datesValid: bool)
    ensures var v := Collect(notBlank, formatted, adult, hasStart, hasEnd, hasSegment, datesValid);
            && (LicenseRequired in v <==> !notBlank) && (LicenseFormat in v <==> !formatted)
            && (TooYoung in v <==> !adult) && (SegmentRequired in v <==> !hasSegment)
  {
    DeclaredAreDistinct();
  }

  /** The date singletons are in the collection exactly when their
      conditions fail. */
  lemma DatesReportedWhenBroken(notBlank: bool, formatted: bool, adult: bool, hasStart: bool, hasEnd: bool,
                                hasSegment: bool, datesValid: bool)
    ensures var v := Collect(notBlank, formatted, adult, hasStart, hasEnd, hasSegment, datesValid);
            && (StartRequired in v <==> !hasStart) && (EndRequired in v <==> !hasEnd)
            && (DatesRule in v <==> !datesValid)
  {
    DeclaredAreDistinct();
  }

  /** The seven declared violations are pairwise different. */
  lemma DeclaredAreDistinct()
    ensures LicenseRequired != LicenseFormat && LicenseRequired != TooYoung && LicenseRequired != StartRequired
    ensures LicenseRequired != EndRequired && LicenseRequired != SegmentRequired && LicenseRequired != DatesRule
    ensures LicenseFormat != TooYoung && LicenseFormat != StartRequired && LicenseFormat != EndRequired
    ensures LicenseFormat != SegmentRequired && LicenseFormat != DatesRule && TooYoung != StartRequired
    ensures TooYoung != EndRequired && TooYoung != SegmentRequired && TooYoung != DatesRule
    ensures StartRequired != EndRequired && StartRequired != SegmentRequired && StartRequired != DatesRule
    ensures EndRequired != SegmentRequired && EndRequired != DatesRule && SegmentRequired != DatesRule
  {
    assert LicenseRequired.message[0] == 'l' && LicenseFormat.message[0] == 'I';
    assert LicenseRequired.field[0] == 'd' && TooYoung.field[0] == 'a' && StartRequired.field[0] == 's';
    assert EndRequired.field[0] == 'e' && SegmentRequired.field[0] == 'c';
  }
}
