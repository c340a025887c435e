/** `DrivingLicenseStubController`: the stand-in driving-license API, a fixed
    table of three licenses filled once when the class loads, and a handler
    with ordered guard clauses. */
module DrivingLicenseStub {
  import opened Outcomes
  import opened JavaText
  import opened Dates
  import opened HttpExchange

  /** What the table holds for a license. */
  datatype LicenseEntry = LicenseEntry(ownerName: string, expiryDate: LocalDate)

  const LicenseNumberKey := "licenseNumber"
  const LicenseRequired := "licenseNumber is required"
  const LicenseNotFound := "Driving license not found"
  const LicenseExpired := "Invalid Input/ Driving license expired"

  /** The seed data relative to the day the table is filled: one license
      valid for two more years, one for ten, one expired a month ago. */
  function SeedDb(loadDay: LocalDate): (db: map<string, LicenseEntry>)
    ensures db.Keys == {"DL123456789", "DL456789123", "DL999888777"}
    ensures IsAfter(db["DL123456789"].expiryDate, loadDay) && IsAfter(db["DL456789123"].expiryDate, loadDay)
    ensures IsBefore(db["DL999888777"].expiryDate, loadDay)
  {
    var db := map[
      "DL123456789" := LicenseEntry("John Doe", PlusYears(loadDay, 2)),
      "DL456789123" := LicenseEntry("Alice Smith", PlusYears(loadDay, 10)),
      "DL999888777" := LicenseEntry("Bob Johnson", MinusMonths(loadDay, 1))];
    assert db.Keys == {"DL123456789", "DL456789123", "DL999888777"};
    db
  }

  class DrivingLicenseStubController {
    /** `LICENSE_DB`. */
    var licenseDb: map<string, LicenseEntry>

    /** The static initializer: three `put`s into an empty table on `loadDay`. */
    constructor (loadDay: LocalDate)
      ensures licenseDb == SeedDb(loadDay)
    {
      licenseDb := map[];
      new;
      Put("DL123456789", LicenseEntry("John Doe", PlusYears(loadDay, 2)));
      Put("DL456789123", LicenseEntry("Alice Smith", PlusYears(loadDay, 10)));
      Put("DL999888777", LicenseEntry("Bob Johnson", MinusMonths(loadDay, 1)));
    }

    /** `Map.put`. */
    method Put(licenseNumber: string, entry: LicenseEntry)
      modifies this
      ensures licenseDb == old(licenseDb)[licenseNumber := entry]
    {
      licenseDb := licenseDb[licenseNumber := entry];
    }

    /** `getLicenseDetails`, `LocalDate.now()` passed in as `today`: a missing
        or blank number, then an unknown number, then an expiry before today
        are rejected in that order; otherwise the owner and expiry date are
        returned. */
    function GetLicenseDetails(request: map<string, Option<string>>, today: LocalDate): (r: Reply<LicenseEntry>)
      reads this
      ensures var n := if LicenseNumberKey in request then request[LicenseNumberKey] else None;
              && (n.None? || IsBlank(n.value) ==> r == ErrorReply(BadRequest, LicenseRequired))
              && (n.Some? && !IsBlank(n.value) && n.value !in licenseDb ==>
                    r == ErrorReply(NotFound, LicenseNotFound))
              && (n.Some? && !IsBlank(n.value) && n.value in licenseDb ==>
                    r == if IsBefore(licenseDb[n.value].expiryDate, today)
                         then ErrorReply(BadRequest, LicenseExpired)
                         else OkReply(licenseDb[n.value]))
    {
      var licenseNumber := if LicenseNumberKey in request then request[LicenseNumberKey] else None;
      if licenseNumber.None? || IsBlank(licenseNumber.value) then
        ErrorReply(BadRequest, LicenseRequired)
      else if licenseNumber.value !in licenseDb then
        ErrorReply(NotFound, LicenseNotFound)
      else if IsBefore(licenseDb[licenseNumber.value].expiryDate, today) then
        ErrorReply(BadRequest, LicenseExpired)
      else
        OkReply(licenseDb[licenseNumber.value])
    }
  }

  // ---- Properties of the seeded table ----

  /** A license expiring today is still returned; only a past expiry is refused. */
  lemma ExpiryTodayIsReturned(stub: DrivingLicenseStubController, number: string, today: LocalDate)
    requires number in stub.licenseDb && !IsBlank(number)
    requires stub.licenseDb[number].expiryDate == today
    ensures stub.GetLicenseDetails(map[LicenseNumberKey := Some(number)], today) == OkReply(stub.licenseDb[number])
  {
  }

  /** Asked on the day the table was filled, the first two seeds are returned
      and the third is refused as expired. */
  lemma SeedsOnLoadDay(stub: DrivingLicenseStubController, loadDay: LocalDate)
    requires stub.licenseDb == SeedDb(loadDay)
    ensures stub.GetLicenseDetails(map[LicenseNumberKey := Some("DL123456789")], loadDay)
            == OkReply(LicenseEntry("John Doe", PlusYears(loadDay, 2)))
    ensures stub.GetLicenseDetails(map[LicenseNumberKey := Some("DL456789123")], loadDay)
            == OkReply(LicenseEntry("Alice Smith", PlusYears(loadDay, 10)))
    ensures stub.GetLicenseDetails(map[LicenseNumberKey := Some("DL999888777")], loadDay)
            == ErrorReply(BadRequest, LicenseExpired)
  {
    assert !IsWhitespace("DL123456789"[0]);
    assert !IsWhitespace("DL456789123"[0]);
    assert !IsWhitespace("DL999888777"[0]);
    MinusOneMonthIsBefore(loadDay);
  }

  /** A number outside the table is not found, and a blank one is refused
      before the table is consulted. */
  lemma UnknownAndBlank(stub: DrivingLicenseStubController, number: string, blank: string, today: LocalDate)
    requires !IsBlank(number) && number !in stub.licenseDb
    requires IsBlank(blank)
    ensures stub.GetLicenseDetails(map[LicenseNumberKey := Some(number)], today) == ErrorReply(NotFound, LicenseNotFound)
    ensures stub.GetLicenseDetails(map[LicenseNumberKey := Some(blank)], today) == ErrorReply(BadRequest, LicenseRequired)
    ensures stub.GetLicenseDetails(map[], today) == ErrorReply(BadRequest, LicenseRequired)
  {
  }
}
