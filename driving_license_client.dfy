/** `DrivingLicenseClient`: looks a license number up at the driving-license
    API and turns every way the call can fail into a `BookingException`. The
    HTTP exchange itself is a parameter. */
module DrivingLicenseClient {
  import opened Outcomes
  import opened JavaText
  import opened HttpExchange
  import opened ProviderModels
  import opened Exceptions

  const LicenseNotFoundPrefix := "Driving license not found: "
  const ApiErrorPrefix := "Driving License API error: "
  const CallFailedMessage := "Failed to call Driving License API"

  /** `maskLicense`: null and values shorter than 4 become "****"; otherwise
      the first two and last two characters stay and the rest become '*'. */
  function MaskLicense(licenseNumber: Option<string>): (r: string)
    ensures licenseNumber.None? || |licenseNumber.value| < 4 ==> r == "****"
    ensures licenseNumber.Some? && |licenseNumber.value| >= 4 ==>
              var s := licenseNumber.value;
              && |r| == |s|
              && (forall i :: 0 <= i < 2 ==> r[i] == s[i])
              && (forall i :: |s| - 2 <= i < |s| ==> r[i] == s[i])
              && (forall i :: 2 <= i < |s| - 2 ==> r[i] == '*')
  {
    if licenseNumber.None? || |licenseNumber.value| < 4 then "****"
    else
      var s := licenseNumber.value;
      var len := |s|;
      s[..2] + Repeat('*', len - 4) + s[len - 2..]
  }

  /** `getLicenseDetails`. A null number fails before any request is made
      (`Map.of` rejects a null value, and that lands in the catch-all). A 404
      names the number as given, a 400 passes the API's own message on, any
      other error status is prefixed, and anything else is a failed call. */
  function GetLicenseDetails(licenseNumber: Option<string>,
                             exchange: string -> HttpOutcome<Option<LicenseResponse>>)
    : (r: Result<Option<LicenseResponse>, Failure>)
    ensures r.Success? <==> licenseNumber.Some? && exchange(licenseNumber.value).Ok?
    ensures r.Success? ==> r.value == exchange(licenseNumber.value).body
    ensures r.Failure? ==> r.error.BookingException?
    ensures licenseNumber.None? || exchange(licenseNumber.value).CallFailed? ==>
              r == Failure(BookingException(CallFailedMessage))
    ensures licenseNumber.Some? && exchange(licenseNumber.value).ErrorStatus? ==>
              var e := exchange(licenseNumber.value);
              var parsed := ParseErrorMessage(e.responseBody, e.exceptionMessage);
              r.error.message ==
                if e.status == NotFound then LicenseNotFoundPrefix + licenseNumber.value
                else if e.status == BadRequest then parsed
                else ApiErrorPrefix + parsed
  {
    if licenseNumber.None? then Failure(BookingException(CallFailedMessage))
    else
      match exchange(licenseNumber.value)
      case Ok(body) => Success(body)
      case ErrorStatus(status, body, exceptionMessage) =>
        if status == NotFound then
          Failure(BookingException(LicenseNotFoundPrefix + licenseNumber.value))
        else if status == BadRequest then
          Failure(BookingException(ParseErrorMessage(body, exceptionMessage)))
        else
          Failure(BookingException(ApiErrorPrefix + ParseErrorMessage(body, exceptionMessage)))
      case CallFailed => Failure(BookingException(CallFailedMessage))
  }

  // ---- Properties ----

  /** The mask depends only on the length and the two characters at each end. */
  lemma MaskHidesMiddle(s: string, t: string)
    requires |s| == |t| && |s| >= 4
    requires s[..2] == t[..2] && s[|s| - 2..] == t[|t| - 2..]
    ensures MaskLicense(Some(s)) == MaskLicense(Some(t))
  {
  }

  /** The documented example, and a four-character number shown whole. */
  lemma MaskExamples()
    ensures MaskLicense(Some("DL123456789")) == "DL*******89"
    ensures MaskLicense(Some("AB12")) == "AB12"
    ensures MaskLicense(Some("AB1")) == "****"
  {
    assert Repeat('*', 7) == "*******";
    assert Repeat('*', 0) == "";
  }

  /** A 400 whose body is the error object the APIs write yields that
      object's message, unchanged. */
  lemma BadRequestMessageReadBack(licenseNumber: string, message: string, exceptionMessage: string,
                                  exchange: string -> HttpOutcome<Option<LicenseResponse>>)
    requires exchange(licenseNumber) == ErrorStatus(BadRequest, ErrorBody(message), exceptionMessage)
    requires IsPlainMessage(message)
    ensures GetLicenseDetails(Some(licenseNumber), exchange) == Failure(BookingException(message))
  {
    ParsesErrorBody(message, exceptionMessage);
  }
}
