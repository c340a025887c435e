/** End-to-end runs of the confirmation steps against the two stand-in APIs:
    a stub's reply travels as JSON to the client, which decodes it. */
module Scenarios {
  import opened Outcomes
  import opened JavaText
  import opened Dates
  import opened Decimals
  import opened Exceptions
  import opened HttpExchange
  import opened ProviderModels
  import opened CarSegments
  import opened ConfirmBookingRequests
  import opened BookingService
  import opened DrivingLicenseStub
  import PricingStub
  import LicenseValidator
  import DrivingLicenseClient
  import CarPricingClient

  /** The license stub's reply as the client receives it: the JSON carries
      only the owner and the expiry date, so the number and the issue date
      decode to null; an error reply arrives as an error status. */
  function LicenseOverWire(reply: Reply<LicenseEntry>, exceptionMessage: string)
    : (r: HttpOutcome<Option<LicenseResponse>>)
    ensures reply.OkReply? ==> r.Ok? && r.body.Some? && r.body.value.licenseNumber.None?
                               && r.body.value.issueDate.None?
                               && r.body.value.ownerName == Some(reply.body.ownerName)
                               && r.body.value.expiryDate == Some(reply.body.expiryDate)
    ensures reply.ErrorReply? ==> r == ErrorStatus(reply.status, ErrorBody(reply.error), exceptionMessage)
  {
    match reply
    case OkReply(entry) =>
      Ok(Some(LicenseResponse(None, Some(entry.ownerName), None, Some(entry.expiryDate))))
    case ErrorReply(status, message) => ErrorStatus(status, ErrorBody(message), exceptionMessage)
  }

  /** The pricing stub's reply as the client receives it. */
  function RateOverWire(reply: Reply<RateResponse>, exceptionMessage: string): (r: HttpOutcome<RateResponse>)
    ensures reply.OkReply? ==> r == Ok(reply.body)
    ensures reply.ErrorReply? ==> r == ErrorStatus(reply.status, ErrorBody(reply.error), exceptionMessage)
  {
    match reply
    case OkReply(rate) => Ok(rate)
    case ErrorReply(status, message) => ErrorStatus(status, ErrorBody(message), exceptionMessage)
  }

  /** The license API is the stub, asked on `today`. */
  ghost predicate ServesLicense(licenseApi: string -> HttpOutcome<Option<LicenseResponse>>,
                          stub: DrivingLicenseStubController, number: string, today: LocalDate)
    reads stub
  {
    exists m :: licenseApi(number)
                == LicenseOverWire(stub.GetLicenseDetails(map[LicenseNumberKey := Some(number)], today), m)
  }

  /** The pricing API is the stub. */
  ghost predicate ServesRate(pricingApi: string -> HttpOutcome<RateResponse>, category: string) {
    exists m :: pricingApi(category)
                == RateOverWire(PricingStub.GetRentalRate(Some(map[PricingStub.CategoryKey := Some(category)])), m)
  }

  /** The request of the documented example: DL123456789, a MEDIUM car from
      2025-11-07 to 2025-11-11. */
  function ExampleRequest(number: string, segment: CarSegment): ConfirmBookingRequest {
    ConfirmBookingRequest(Some(number), 30, Some(Date(2025, 11, 7)), Some(Date(2025, 11, 11)), Some(segment))
  }

  /** The stub's DL123456789 reaches the service and passes the license check. */
  lemma JohnDoeLicensePasses(stub: DrivingLicenseStubController, today: LocalDate,
                             licenseApi: string -> HttpOutcome<Option<LicenseResponse>>)
    requires stub.licenseDb == SeedDb(today)
    requires ServesLicense(licenseApi, stub, "DL123456789", today)
    ensures var license := Some(LicenseResponse(None, Some("John Doe"), None, Some(PlusYears(today, 2))));
            && DrivingLicenseClient.GetLicenseDetails(Some("DL123456789"), licenseApi) == Success(license)
            && LicenseValidator.ValidateLicense(license, today) == Pass
  {
    SeedsOnLoadDay(stub, today);
    LicenseValidator.EligibleYearsAhead(today, 2);
  }

  /** DL123456789 books a MEDIUM car for five days at 45.99 a day: John Doe
      pays 229.95, after all four steps. */
  lemma MediumForFiveDays(stub: DrivingLicenseStubController, today: LocalDate,
                          licenseApi: string -> HttpOutcome<Option<LicenseResponse>>,
                          pricingApi: string -> HttpOutcome<RateResponse>)
    requires stub.licenseDb == SeedDb(today)
    requires ServesLicense(licenseApi, stub, "DL123456789", today)
    requires ServesRate(pricingApi, "MEDIUM")
    ensures PlanConfirmation(ExampleRequest("DL123456789", MEDIUM), today, licenseApi, pricingApi)
            == Persist(Some("John Doe"), Decimal(22995, 2), FullOrder(MEDIUM))
  {
    JohnDoeLicensePasses(stub, today, licenseApi);
    PricingStub.PricesKey("MEDIUM");
    TotalPriceExample();
  }

  /** DL456789123 expires ten years ahead: the stub returns it, the license
      check rejects it, and pricing is never asked. */
  lemma TenYearLicenseRejected(stub: DrivingLicenseStubController, today: LocalDate,
                               licenseApi: string -> HttpOutcome<Option<LicenseResponse>>,
                               pricingApi: string -> HttpOutcome<RateResponse>)
    requires stub.licenseDb == SeedDb(today)
    requires ServesLicense(licenseApi, stub, "DL456789123", today)
    ensures PlanConfirmation(ExampleRequest("DL456789123", MEDIUM), today, licenseApi, pricingApi)
            == Abort(BookingException(LicenseValidator.InvalidLicenseMessage), [FetchLicense, CheckLicense])
  {
    SeedsOnLoadDay(stub, today);
    LicenseValidator.EligibleYearsAhead(today, 10);
  }

  /** The table keeps the dates it was filled with: on the day John Doe's
      license expires, two years after loading, the stub still returns it
      (its expiry is not before today), but the license check rejects it
      (its expiry is not after today), so pricing is never asked. */
  lemma SeededLicenseLapses(stub: DrivingLicenseStubController, loadDay: LocalDate,
                            licenseApi: string -> HttpOutcome<Option<LicenseResponse>>,
                            pricingApi: string -> HttpOutcome<RateResponse>)
    requires stub.licenseDb == SeedDb(loadDay)
    requires ServesLicense(licenseApi, stub, "DL123456789", PlusYears(loadDay, 2))
    ensures var today := PlusYears(loadDay, 2);
            && stub.GetLicenseDetails(map[LicenseNumberKey := Some("DL123456789")], today)
               == OkReply(LicenseEntry("John Doe", today))
            && PlanConfirmation(ExampleRequest("DL123456789", MEDIUM), today, licenseApi, pricingApi)
               == Abort(BookingException(LicenseValidator.InvalidLicenseMessage), [FetchLicense, CheckLicense])
  {
    var today := PlusYears(loadDay, 2);
    assert !IsWhitespace("DL123456789"[0]);
    ExpiryTodayIsReturned(stub, "DL123456789", today);
    LicenseValidator.EligibleYearsAhead(today, 0);
  }

  /** The two stub messages travel through the error body unchanged. */
  lemma StubMessagesArePlain()
    ensures IsPlainMessage(LicenseExpired) && IsPlainMessage(PricingStub.InvalidCategory)
  {
  }

  /** DL999888777 expired a month ago: the stub's 400 message reaches the
      caller as it was written. */
  lemma ExpiredLicenseRejected(stub: DrivingLicenseStubController, today: LocalDate,
                               licenseApi: string -> HttpOutcome<Option<LicenseResponse>>,
                               pricingApi: string -> HttpOutcome<RateResponse>)
    requires stub.licenseDb == SeedDb(today)
    requires ServesLicense(licenseApi, stub, "DL999888777", today)
    ensures PlanConfirmation(ExampleRequest("DL999888777", MEDIUM), today, licenseApi, pricingApi)
            == Abort(BookingException(LicenseExpired), [FetchLicense])
  {
    SeedsOnLoadDay(stub, today);
    var m :| licenseApi("DL999888777") == LicenseOverWire(ErrorReply(BadRequest, LicenseExpired), m);
    assert licenseApi("DL999888777") == ErrorStatus(BadRequest, ErrorBody(LicenseExpired), m);
    StubMessagesArePlain();
    DrivingLicenseClient.BadRequestMessageReadBack("DL999888777", LicenseExpired, m, licenseApi);
  }

  /** An unknown number fails with the number as given. */
  lemma UnknownLicense(stub: DrivingLicenseStubController, today: LocalDate, number: string,
                       licenseApi: string -> HttpOutcome<Option<LicenseResponse>>,
                       pricingApi: string -> HttpOutcome<RateResponse>)
    requires !IsBlank(number) && number !in stub.licenseDb
    requires ServesLicense(licenseApi, stub, number, today)
    ensures PlanConfirmation(ExampleRequest(number, MEDIUM), today, licenseApi, pricingApi)
            == Abort(BookingException("Driving license not found: " + number), [FetchLicense])
  {
  }

  /** The pricing stub's answer to "EXTRALARGE" reaches the service as its
      own message. */
  lemma ExtraLargeRateFails(pricingApi: string -> HttpOutcome<RateResponse>)
    requires ServesRate(pricingApi, "EXTRALARGE")
    ensures CarPricingClient.GetRateForCategory("EXTRALARGE", pricingApi)
            == Failure(BookingException(PricingStub.InvalidCategory))
  {
    PricingStub.RejectsExtraLargeName();
    var m :| pricingApi("EXTRALARGE") == RateOverWire(ErrorReply(BadRequest, PricingStub.InvalidCategory), m);
    assert pricingApi("EXTRALARGE") == ErrorStatus(BadRequest, ErrorBody(PricingStub.InvalidCategory), m);
    StubMessagesArePlain();
    CarPricingClient.BadRequestMessageReadBack("EXTRALARGE", PricingStub.InvalidCategory, m, pricingApi);
  }

  /** An EXTRALARGE booking is sent to pricing as "EXTRALARGE", which the
      pricing stub does not know: the booking fails at the rate lookup. */
  lemma ExtraLargeNotPriced(stub: DrivingLicenseStubController, today: LocalDate,
                            licenseApi: string -> HttpOutcome<Option<LicenseResponse>>,
                            pricingApi: string -> HttpOutcome<RateResponse>)
    requires stub.licenseDb == SeedDb(today)
    requires ServesLicense(licenseApi, stub, "DL123456789", today)
    requires ServesRate(pricingApi, "EXTRALARGE")
    ensures PlanConfirmation(ExampleRequest("DL123456789", EXTRALARGE), today, licenseApi, pricingApi)
            == Abort(BookingException(PricingStub.InvalidCategory),
                     [FetchLicense, CheckLicense, FetchRate("EXTRALARGE")])
  {
    JohnDoeLicensePasses(stub, today, licenseApi);
    ExtraLargeStopsAtRate(today, licenseApi, pricingApi);
  }

  /** Past a valid license, an EXTRALARGE booking stops at the pricing stub. */
  lemma ExtraLargeStopsAtRate(today: LocalDate,
                              licenseApi: string -> HttpOutcome<Option<LicenseResponse>>,
                              pricingApi: string -> HttpOutcome<RateResponse>)
    requires var license := DrivingLicenseClient.GetLicenseDetails(Some("DL123456789"), licenseApi);
             license.Success? && LicenseValidator.ValidateLicense(license.value, today).Pass?
    requires ServesRate(pricingApi, "EXTRALARGE")
    ensures PlanConfirmation(ExampleRequest("DL123456789", EXTRALARGE), today, licenseApi, pricingApi)
            == Abort(BookingException(PricingStub.InvalidCategory),
                     [FetchLicense, CheckLicense, FetchRate("EXTRALARGE")])
  {
    var req := ExampleRequest("DL123456789", EXTRALARGE);
    ExtraLargeRateFails(pricingApi);
    assert req.drivingLicenseNumber == Some("DL123456789") && Name(req.carSegment.value) == "EXTRALARGE";
    StopsAtRate(req, today, licenseApi, pricingApi);
  }
}
