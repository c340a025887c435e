/** `CarPricingClient`: asks the pricing API for a category's daily rate and
    turns every way the call can fail into a `BookingException`. The HTTP
    exchange itself is a parameter. */
module CarPricingClient {
  import opened Outcomes
  import opened JavaText
  import opened HttpExchange
  import opened ProviderModels
  import opened Exceptions

  const ApiErrorPrefix := "Car Pricing API error: "
  const CallFailedMessage := "Failed to call Car Pricing API"

  /** `getRateForCategory`: a 400 passes the API's own message on, any other
      error status (404 included) is prefixed, anything else is a failed call. */
  function GetRateForCategory(category: string, exchange: string -> HttpOutcome<RateResponse>)
    : (r: Result<RateResponse, Failure>)
    ensures r.Success? <==> exchange(category).Ok?
    ensures r.Success? ==> r.value == exchange(category).body
    ensures r.Failure? ==> r.error.BookingException?
    ensures exchange(category).CallFailed? ==> r == Failure(BookingException(CallFailedMessage))
    ensures exchange(category).ErrorStatus? ==>
              var e := exchange(category);
              var parsed := ParseErrorMessage(e.responseBody, e.exceptionMessage);
              r.error.message == if e.status == BadRequest then parsed else ApiErrorPrefix + parsed
  {
    match exchange(category)
    case Ok(body) => Success(body)
    case ErrorStatus(status, body, exceptionMessage) =>
      if status == BadRequest then
        Failure(BookingException(ParseErrorMessage(body, exceptionMessage)))
      else
        Failure(BookingException(ApiErrorPrefix + ParseErrorMessage(body, exceptionMessage)))
    case CallFailed => Failure(BookingException(CallFailedMessage))
  }

  /** A 400 whose body is the error object the APIs write yields that
      object's message, unchanged. */
  lemma BadRequestMessageReadBack(category: string, message: string, exceptionMessage: string,
                                  exchange: string -> HttpOutcome<RateResponse>)
    requires exchange(category) == ErrorStatus(BadRequest, ErrorBody(message), exceptionMessage)
    requires IsPlainMessage(message)
    ensures GetRateForCategory(category, exchange) == Failure(BookingException(message))
  {
    ParsesErrorBody(message, exceptionMessage);
  }
}
