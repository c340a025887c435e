/** What the two external APIs answer once the client has decoded the JSON. */
module ProviderModels {
  import opened Outcomes
  import opened Dates
  import opened Decimals

  /** The driving-license API's record. Every field may be absent from the
      JSON and so be null after decoding. */
  datatype LicenseResponse = LicenseResponse(
    licenseNumber: Option<string>,
    ownerName: Option<string>,
    issueDate: Option<LocalDate>,
    expiryDate: Option<LocalDate>)

  /** The pricing API's record: the category it priced and its rate per day. */
  datatype RateResponse = RateResponse(category: string, ratePerDay: Decimal)
}
