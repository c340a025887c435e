/** `LicenseValidator`: whether a license the driving-license API returned may
    be used for a booking. The decision looks at the expiry date only. */
module LicenseValidator {
  import opened Outcomes
  import opened Dates
  import opened ProviderModels
  import opened Exceptions

  /** The one message every rejection carries. */
  const InvalidLicenseMessage: string :=
    "Please provide valid License: Driving License must be at least 1 year old or Driving License has been expired"

  /** The condition on the expiry date: later than today, and ten years before
      it no later than one year before today (a license runs for ten years, so
      it was issued at least a year ago). */
  predicate IsEligible(expiry: LocalDate, today: LocalDate) {
    IsAfter(expiry, today) && !IsAfter(MinusYears(expiry, 10), MinusYears(today, 1))
  }

  /** `validateLicense`, with `LocalDate.now()` passed in as `today`: returns
      normally exactly when the license and its expiry date are present and
      the expiry date is eligible; otherwise throws the fixed message. */
  function ValidateLicense(license: Option<LicenseResponse>, today: LocalDate): (r: Outcome<Failure>)
    ensures r.Pass? <==> license.Some? && license.value.expiryDate.Some?
                         && IsEligible(license.value.expiryDate.value, today)
    ensures r.Fail? ==> r.error == BookingException(InvalidLicenseMessage)
  {
    if license.None? || license.value.expiryDate.None?
       || !IsAfter(license.value.expiryDate.value, today)
       || IsAfter(MinusYears(license.value.expiryDate.value, 10), MinusYears(today, 1))
    then Fail(BookingException(InvalidLicenseMessage))
    else Pass
  }

  // ---- What the rule means ----

  /** An expiry date `k` years after today is accepted exactly for k in 1..9:
      today+5y passes, today+10y fails, today itself and the past fail. */
  lemma EligibleYearsAhead(today: LocalDate, k: int)
    ensures IsEligible(PlusYears(today, k), today) <==> 1 <= k <= 9
  {
    var e := PlusYears(today, k);
    if k == 9 {
      if today.month == 2 && today.day == 29 {
        assert !IsLeapYear(today.year + 9);
        assert !IsLeapYear(today.year - 1);
        assert MinusYears(e, 10) == MinusYears(today, 1);
      } else {
        assert MinusYears(e, 10) == MinusYears(today, 1);
      }
    }
  }

  /** Away from February 29th the rule is a window: after today and no later
      than the same day nine years ahead. */
  lemma EligibleWithinNineYears(expiry: LocalDate, today: LocalDate)
    requires !(expiry.month == 2 && expiry.day == 29)
    requires !(today.month == 2 && today.day == 29)
    ensures IsEligible(expiry, today) <==> IsAfter(expiry, today) && !IsAfter(expiry, PlusYears(today, 9))
  {
    assert MinusYears(expiry, 10) == Date(expiry.year - 10, expiry.month, expiry.day);
    assert MinusYears(today, 1) == Date(today.year - 1, today.month, today.day);
    assert PlusYears(today, 9) == Date(today.year + 9, today.month, today.day);
  }

  /** On February 29th the window is wider than nine calendar years: with
      today 2023-02-28 an expiry of 2032-02-29 passes, one day after
      2032-02-28, because ten years back it lands on 2022-02-28 as well. */
  lemma LeapDayExpiryPasses()
    ensures IsEligible(Date(2032, 2, 29), Date(2023, 2, 28))
    ensures IsAfter(Date(2032, 2, 29), PlusYears(Date(2023, 2, 28), 9))
  {
    assert !IsLeapYear(2022);
    assert MinusYears(Date(2032, 2, 29), 10) == Date(2022, 2, 28);
  }

  /** Null license, null expiry and an expiry on or before today are rejected. */
  lemma RejectsMissingOrExpired(license: Option<LicenseResponse>, today: LocalDate)
    requires license.None? || license.value.expiryDate.None?
             || !IsAfter(license.value.expiryDate.value, today)
    ensures ValidateLicense(license, today) == Fail(BookingException(InvalidLicenseMessage))
  {
  }

  /** The decision reads neither the issue date, nor the owner, nor the number. */
  lemma ReadsOnlyExpiry(a: LicenseResponse, b: LicenseResponse, today: LocalDate)
    requires a.expiryDate == b.expiryDate
    ensures ValidateLicense(Some(a), today) == ValidateLicense(Some(b), today)
  {
  }
}
