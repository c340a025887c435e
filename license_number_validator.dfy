/** `LicenseNumberValidator`: the format of a driving-license number, the
    whole string matching `^[A-Za-z0-9_-]{5,20}$`. */
module LicenseNumberValidator {
  import opened Outcomes

  /** The message the `@ValidLicenseNumber` constraint reports. */
  const FormatMessage: string := "Invalid driving license number format"

  const MinLength := 5
  const MaxLength := 20

  /** The character class `[A-Za-z0-9_-]`. */
  predicate IsLicenseChar(c: char) {
    'A' <= c <= 'Z' || 'a' <= c <= 'z' || '0' <= c <= '9' || c == '_' || c == '-'
  }

  /** The repeated class, matched one character at a time from the left. */
  function MatchesClass(s: string): (r: bool)
    ensures r <==> forall i :: 0 <= i < |s| ==> IsLicenseChar(s[i])
  {
    if s == [] then true
    else IsLicenseChar(s[0]) && MatchesClass(s[1..])
  }

  /** `isValid`: null is invalid; otherwise the whole value must be 5 to 20
      characters of the class. */
  function IsValid(value: Option<string>): (r: bool)
    ensures r <==> value.Some? && MinLength <= |value.value| <= MaxLength
                   && forall i :: 0 <= i < |value.value| ==> IsLicenseChar(value.value[i])
  {
    value.Some? && MinLength <= |value.value| <= MaxLength && MatchesClass(value.value)
  }

  /** One character outside the class anywhere rejects the whole value. */
  lemma OneBadCharRejects(prefix: string, c: char, suffix: string)
    requires !IsLicenseChar(c)
    ensures !IsValid(Some(prefix + [c] + suffix))
  {
    assert (prefix + [c] + suffix)[|prefix|] == c;
  }

  /** Values of 5 to 20 class characters are accepted. */
  lemma AcceptedExamples()
    ensures IsValid(Some("DL123456789"))
    ensures IsValid(Some("AB-_9"))
  {
    var s := "DL123456789";
    assert s[0] == 'D' && s[1] == 'L' && forall i :: 2 <= i < |s| ==> '1' <= s[i] <= '9';
    assert MatchesClass("AB-_9");
  }

  /** Lengths 4 and 21 are rejected, and so are a space, a '.' and null. */
  lemma RejectedExamples()
    ensures !IsValid(Some("AB12"))
    ensures !IsValid(Some("ABCDEFGHIJKLMNOPQRSTU"))
    ensures !IsValid(Some("DL123 456"))
    ensures !IsValid(Some("DL.123456"))
    ensures !IsValid(None)
  {
    OneBadCharRejects("DL123", ' ', "456");
    assert "DL123" + [' '] + "456" == "DL123 456";
    OneBadCharRejects("DL", '.', "123456");
    assert "DL" + ['.'] + "123456" == "DL.123456";
  }
}
