/** `BookingServiceImpl`: confirming a booking (license lookup, license check,
    rate lookup, price, one save) and looking a booking up by id. The two
    HTTP exchanges are fixed functions of the service, the repository is the
    store it writes to, and `trace` records the steps in the order they run. */
module BookingService {
  import opened Outcomes
  import opened JavaText
  import opened Dates
  import opened Decimals
  import opened Exceptions
  import opened HttpExchange
  import opened ProviderModels
  import opened CarSegments
  import opened ConfirmBookingRequests
  import opened Entity
  import opened BookingMapper
  import opened BookingStore
  import DrivingLicenseClient
  import CarPricingClient
  import LicenseValidator
  import BookingDatesValidator

  /** A step of `confirmBooking`. */
  datatype Step =
    | FetchLicense
    | CheckLicense
    | FetchRate(category: string)
    | PriceBooking
    | SaveBooking

  /** Where the steps before the save lead: a failure after the steps run so
      far, or the owner and total to save after all four. */
  datatype Plan =
    | Abort(failure: Failure, steps: seq<Step>)
    | Persist(ownerName: Option<string>, total: Decimal, steps: seq<Step>)

  const BookingNotFoundPrefix := "Car Rental Booking details not found: "

  /** The total: the daily rate times the days counted inclusively, at two
      decimals rounded half up. */
  function TotalPrice(ratePerDay: Decimal, start: LocalDate, end: LocalDate): (total: Decimal)
    ensures total.scale == 2
    ensures RoundsHalfUp(Multiply(ratePerDay, ValueOfLong(DaysBetween(start, end) + 1)), total)
  {
    SetScaleHalfUp(Multiply(ratePerDay, ValueOfLong(DaysBetween(start, end) + 1)), 2)
  }

  /** A rate with at most two decimals is priced exactly: no rounding. */
  lemma TotalPriceExact(ratePerDay: Decimal, start: LocalDate, end: LocalDate)
    requires ratePerDay.scale <= 2
    ensures TotalPrice(ratePerDay, start, end)
            == Decimal(ratePerDay.unscaled * (DaysBetween(start, end) + 1) * Pow10(2 - ratePerDay.scale), 2)
  {
  }

  /** For dates in order, a non-negative rate gives a non-negative total. */
  lemma TotalPriceNonNegative(ratePerDay: Decimal, start: LocalDate, end: LocalDate)
    requires ratePerDay.unscaled >= 0 && !IsAfter(start, end)
    ensures TotalPrice(ratePerDay, start, end).unscaled >= 0
  {
    EpochDayOrder(end, start);
    var days := DaysBetween(start, end) + 1;
    CountTimesRate(ratePerDay.unscaled, days);
    RoundingKeepsSign(Multiply(ratePerDay, ValueOfLong(days)), TotalPrice(ratePerDay, start, end));
  }

  lemma CountTimesRate(a: int, b: int)
    requires a >= 0 && b >= 1
    ensures a * b >= 0
  {
  }

  /** A rate of 45.99 over 2025-11-07 to 2025-11-11 (five days) costs 229.95. */
  lemma TotalPriceExample()
    ensures TotalPrice(Decimal(4599, 2), Date(2025, 11, 7), Date(2025, 11, 11)) == Decimal(22995, 2)
  {
    EpochDayExamples();
    TotalPriceExact(Decimal(4599, 2), Date(2025, 11, 7), Date(2025, 11, 11));
  }

  /** A rate with a third decimal is rounded half up: 0.125 for one day is 0.13. */
  lemma TotalPriceRoundsHalfUp()
    ensures TotalPrice(Decimal(125, 3), Date(2025, 11, 7), Date(2025, 11, 7)) == Decimal(13, 2)
  {
    assert Pow10(1) == 10;
    assert RoundMagnitude(125, 10) == 13;
  }

  /** A rate of at most 1,000,000.00 over a range the date rule accepts always
      fits the numeric(10, 2) price column. */
  lemma TotalFitsPriceColumn(ratePerDay: Decimal, start: LocalDate, end: LocalDate)
    requires ratePerDay.scale <= 2
    requires 0 <= ratePerDay.unscaled * Pow10(2 - ratePerDay.scale) <= 100000000
    requires BookingDatesValidator.IsValid(Some(start), Some(end))
    ensures FitsPriceColumn(TotalPrice(ratePerDay, start, end))
  {
    var days := DaysBetween(start, end) + 1;
    var p := Pow10(2 - ratePerDay.scale);
    TotalPriceExact(ratePerDay, start, end);
    CentsBound(ratePerDay.unscaled, p, days);
    assert Pow10(PricePrecision) == 10000000000;
    var total := TotalPrice(ratePerDay, start, end);
    assert SetScaleHalfUp(total, 2) == total;
  }

  lemma CentsBound(u: int, p: int, days: int)
    requires 0 <= u * p <= 100000000 && 1 <= days <= 30
    ensures 0 <= u * days * p < 10000000000
  {
    assert u * days * p == (u * p) * days;
    ProductBound(u * p, days);
  }

  lemma {:induction false} ProductBound(x: int, d: nat)
    requires 0 <= x <= 100000000
    ensures 0 <= x * d <= 100000000 * d
  {
    if d > 0 {
      ProductBound(x, d - 1);
      assert x * d == x * (d - 1) + x;
    }
  }

  /** The four steps before the save, in the order they run. */
  function FullOrder(segment: CarSegment): seq<Step> {
    [FetchLicense, CheckLicense, FetchRate(Name(segment)), PriceBooking]
  }

  /** What `confirmBooking` does before it saves. A failed lookup stops after
      the first step and a rejected license after the second, so in both
      cases the pricing API is never asked; a failed rate lookup stops after
      the third; otherwise all four run and the booking is for the license's
      owner at the computed total. */
  function PlanConfirmation(req: ConfirmBookingRequest, today: LocalDate,
                            licenseApi: string -> HttpOutcome<Option<LicenseResponse>>,
                            pricingApi: string -> HttpOutcome<RateResponse>): (p: Plan)
    requires req.startDate.Some? && req.endDate.Some? && req.carSegment.Some?
    ensures p.steps <= FullOrder(req.carSegment.value)
    ensures p.Persist? <==> p.steps == FullOrder(req.carSegment.value)
    ensures var license := DrivingLicenseClient.GetLicenseDetails(req.drivingLicenseNumber, licenseApi);
            && (license.Failure? ==> p == Abort(license.error, [FetchLicense]))
            && (license.Success? && LicenseValidator.ValidateLicense(license.value, today).Fail? ==>
                  p == Abort(LicenseValidator.ValidateLicense(license.value, today).error, [FetchLicense, CheckLicense]))
            && (p.Persist? ==>
                  && license.Success? && license.value.Some?
                  && LicenseValidator.ValidateLicense(license.value, today).Pass?
                  && p.ownerName == license.value.value.ownerName)
    ensures p.Persist? ==>
              var rate := CarPricingClient.GetRateForCategory(Name(req.carSegment.value), pricingApi);
              rate.Success? && p.total == TotalPrice(rate.value.ratePerDay, req.startDate.value, req.endDate.value)
    ensures var license := DrivingLicenseClient.GetLicenseDetails(req.drivingLicenseNumber, licenseApi);
            var rate := CarPricingClient.GetRateForCategory(Name(req.carSegment.value), pricingApi);
            license.Success? && LicenseValidator.ValidateLicense(license.value, today).Pass? && rate.Success? ==>
              p == Persist(license.value.value.ownerName,
                           TotalPrice(rate.value.ratePerDay, req.startDate.value, req.endDate.value),
                           FullOrder(req.carSegment.value))
  {
    var segment := req.carSegment.value;
    match DrivingLicenseClient.GetLicenseDetails(req.drivingLicenseNumber, licenseApi)
    case Failure(e) => Abort(e, [FetchLicense])
    case Success(license) =>
      match LicenseValidator.ValidateLicense(license, today)
      case Fail(e) => Abort(e, [FetchLicense, CheckLicense])
      case Pass =>
        match CarPricingClient.GetRateForCategory(Name(segment), pricingApi)
        case Failure(e) => Abort(e, [FetchLicense, CheckLicense, FetchRate(Name(segment))])
        case Success(rate) =>
          Persist(license.value.ownerName, TotalPrice(rate.ratePerDay, req.startDate.value, req.endDate.value),
                  FullOrder(segment))
  }

  /** A license that is found and valid, then a failed rate lookup: the
      plan stops at the rate with the pricing client's failure. */
  lemma StopsAtRate(req: ConfirmBookingRequest, today: LocalDate,
                    licenseApi: string -> HttpOutcome<Option<LicenseResponse>>,
                    pricingApi: string -> HttpOutcome<RateResponse>)
    requires req.startDate.Some? && req.endDate.Some? && req.carSegment.Some?
    requires var license := DrivingLicenseClient.GetLicenseDetails(req.drivingLicenseNumber, licenseApi);
             license.Success? && LicenseValidator.ValidateLicense(license.value, today).Pass?
    requires CarPricingClient.GetRateForCategory(Name(req.carSegment.value), pricingApi).Failure?
    ensures PlanConfirmation(req, today, licenseApi, pricingApi)
            == Abort(CarPricingClient.GetRateForCategory(Name(req.carSegment.value), pricingApi).error,
                     [FetchLicense, CheckLicense, FetchRate(Name(req.carSegment.value))])
  {
  }

  class BookingServiceImpl {
    const licenseApi: string -> HttpOutcome<Option<LicenseResponse>>
    const pricingApi: string -> HttpOutcome<RateResponse>
    const repository: BookingRepository
    /** The steps run so far, oldest first. */
    ghost var trace: seq<Step>

    constructor (licenseApi: string -> HttpOutcome<Option<LicenseResponse>>,
                 pricingApi: string -> HttpOutcome<RateResponse>,
                 repository: BookingRepository)
      ensures this.licenseApi == licenseApi && this.pricingApi == pricingApi
      ensures this.repository == repository && trace == []
    {
      this.licenseApi := licenseApi;
      this.pricingApi := pricingApi;
      this.repository := repository;
      trace := [];
    }

    /** `confirmBooking`, with `LocalDate.now()` as `today` and `Instant.now()`
        as `now`. The steps of `PlanConfirmation` run; when they reach the
        save, the mapped booking is saved once and its new id returned. Any
        failure leaves the store as it was. */
    method ConfirmBooking(req: ConfirmBookingRequest, today: LocalDate, now: Instant)
      returns (r: Result<Uuid, Failure>)
      requires repository.Valid()
      requires req.startDate.Some? && req.endDate.Some? && req.carSegment.Some?
      modifies this, repository
      ensures repository.Valid()
      ensures match PlanConfirmation(req, today, licenseApi, pricingApi)
              case Abort(e, steps) =>
                && r == Failure(e) && trace == old(trace) + steps
                && repository.rows == old(repository.rows)
                && repository.nextId == old(repository.nextId)
              case Persist(ownerName, total, steps) =>
                && trace == old(trace) + steps + [SaveBooking]
                && var id := old(repository.nextId);
                   var row := MappedRow(req, ownerName, Some(total)).(id := Some(id), createdAt := Some(now));
                   match ColumnViolation(row)
                   case None =>
                     && r == Success(id)
                     && repository.nextId == id + 1
                     && repository.rows == old(repository.rows)[id := row]
                     && GetBookingDetails(id)
                        == Success(BookingDetailsResponse(Some(id), req.drivingLicenseNumber, ownerName, req.age,
                                                          req.startDate, req.endDate, req.carSegment, Some(total)))
                   case Some(column) =>
                     && r == Failure(ConstraintViolation(column))
                     && repository.rows == old(repository.rows)
                     && repository.nextId == id + 1
    {
      var plan := RunSteps(req, today);
      match plan
      case Abort(e, _) =>
        r := Failure(e);
      case Persist(ownerName, total, _) =>
        var booking := ToBooking(req, ownerName, Some(total));
        trace := trace + [SaveBooking];
        var saved := repository.Save(booking, now);
        match saved
        case Failure(e) =>
          r := Failure(e);
        case Success(b) =>
          r := Success(b.id.value);
    }

    /** The steps of `confirmBooking` before the save, each recorded as it
        runs; the run stops at the first failure. This is the code that
        `PlanConfirmation` specifies: the method does the steps one at a time,
        the function states their outcome as a whole. */
    method RunSteps(req: ConfirmBookingRequest, today: LocalDate) returns (plan: Plan)
      requires req.startDate.Some? && req.endDate.Some? && req.carSegment.Some?
      modifies this
      ensures plan == PlanConfirmation(req, today, licenseApi, pricingApi)
      ensures trace == old(trace) + plan.steps
    {
      var segment := req.carSegment.value;
      trace := trace + [FetchLicense];
      var license := DrivingLicenseClient.GetLicenseDetails(req.drivingLicenseNumber, licenseApi);
      if license.Failure? {
        return Abort(license.error, [FetchLicense]);
      }
      trace := trace + [CheckLicense];
      var check := LicenseValidator.ValidateLicense(license.value, today);
      if check.Fail? {
        return Abort(check.error, [FetchLicense, CheckLicense]);
      }
      var category := Name(segment);
      trace := trace + [FetchRate(category)];
      var rate := CarPricingClient.GetRateForCategory(category, pricingApi);
      if rate.Failure? {
        return Abort(rate.error, [FetchLicense, CheckLicense, FetchRate(category)]);
      }
      trace := trace + [PriceBooking];
      var total := TotalPrice(rate.value.ratePerDay, req.startDate.value, req.endDate.value);
      plan := Persist(license.value.value.ownerName, total, FullOrder(segment));
    }

    /** `getBookingDetails`: the stored booking's details, or the not-found
        failure naming the id. A lookup changes nothing, so repeating it gives
        the same answer. */
    function GetBookingDetails(id: Uuid): (r: Result<BookingDetailsResponse, Failure>)
      reads repository
      ensures r.Success? <==> id in repository.rows
      ensures r.Success? ==> r.value == ResponseOf(repository.rows[id])
      ensures repository.Valid() && r.Success? ==> r.value.bookingId == Some(id)
      ensures r.Failure? ==> r.error == BookingException(BookingNotFoundPrefix + NatText(id))
    {
      match repository.FindById(id)
      case Some(row) => Success(ResponseOf(row))
      case None => Failure(BookingException(BookingNotFoundPrefix + NatText(id)))
    }
  }
}
