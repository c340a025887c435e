/** `CarSegment`: the car categories a customer can book, and the lenient
    parser `from` that maps spellings of them to a constant. */
module CarSegments {
  import opened Outcomes
  import opened JavaText

  datatype CarSegment = SMALL | MEDIUM | LARGE | EXTRALARGE

  /** `name()`: the constant's identifier. */
  function Name(c: CarSegment): string {
    match c
    case SMALL => "SMALL"
    case MEDIUM => "MEDIUM"
    case LARGE => "LARGE"
    case EXTRALARGE => "EXTRALARGE"
  }

  /** The five spellings `from` accepts for EXTRALARGE. */
  const ExtraLargeSpellings: set<string> :=
    {"EXTRALARGE", "EXTRA_LARGE", "EXTRA-LARGE", "EXTRA LARGE", "EXTRA"}

  /** What `from` switches on: null as "", anything else stripped and
      upper-cased. */
  function Normalize(s: Option<string>): string {
    if s.None? then "" else ToUpper(Strip(s.value))
  }

  /** The switch inside `from`, on the normalised text. */
  function Lookup(n: string): (r: Option<CarSegment>)
    ensures r.Some? ==> n == Name(r.value) || (r.value == EXTRALARGE && n in ExtraLargeSpellings)
    ensures r.None? <==> n !in {"SMALL", "MEDIUM", "LARGE"} + ExtraLargeSpellings
  {
    if n == "SMALL" then Some(SMALL)
    else if n == "MEDIUM" then Some(MEDIUM)
    else if n == "LARGE" then Some(LARGE)
    else if n in ExtraLargeSpellings then Some(EXTRALARGE)
    else None
  }

  /** `from`: the constant the normalised input names, or an
      `IllegalArgumentException` quoting the input as given. */
  function From(s: Option<string>): (r: Result<CarSegment, string>)
    ensures r.Success? ==> Normalize(s) == Name(r.value)
                           || (r.value == EXTRALARGE && Normalize(s) in ExtraLargeSpellings)
    ensures r.Failure? <==> Normalize(s) !in {"SMALL", "MEDIUM", "LARGE"} + ExtraLargeSpellings
    ensures r.Failure? ==> r.error == "Unknown car segment: " + Show(s)
  {
    match Lookup(Normalize(s))
    case Some(c) => Success(c)
    case None => Failure("Unknown car segment: " + Show(s))
  }

  /** `from` decides on the normalised text alone. */
  lemma FromByNormalForm(s: Option<string>, t: Option<string>)
    requires Normalize(s) == Normalize(t)
    ensures From(s).Success? == From(t).Success?
    ensures From(s).Success? ==> From(s).value == From(t).value
  {
  }

  /** Every constant is read back from its own name. */
  lemma FromName(c: CarSegment)
    ensures From(Some(Name(c))) == Success(c)
  {
    NameIsNormal(c);
    FromNormalized(Some(Name(c)), c);
  }

  /** A constant's name is its own normal form. */
  lemma NameIsNormal(c: CarSegment)
    ensures Normalize(Some(Name(c))) == Name(c)
  {
    match c
    case SMALL => NormalFormOfUpper("SMALL");
    case MEDIUM => NormalFormOfUpper("MEDIUM");
    case LARGE => NormalFormOfUpper("LARGE");
    case EXTRALARGE => NormalFormOfUpper("EXTRALARGE");
  }

  /** Text with no lower-case letter and no blank end is already normal. */
  lemma NormalFormOfUpper(s: string)
    requires forall i :: 0 <= i < |s| ==> !('a' <= s[i] <= 'z')
    requires s == [] || (!IsWhitespace(s[0]) && !IsWhitespace(s[|s| - 1]))
    ensures Normalize(Some(s)) == s
  {
    NormalFormUnchanged(s, IsWhitespace);
  }

  /** Upper-casing commutes with dropping leading whitespace. */
  lemma {:induction false} UpperTrimLeading(s: string)
    ensures ToUpper(TrimLeading(s, IsWhitespace)) == TrimLeading(ToUpper(s), IsWhitespace)
  {
    if s != [] {
      assert ToUpper(s)[0] == UpperChar(s[0]);
      if IsWhitespace(s[0]) {
        assert ToUpper(s)[1..] == ToUpper(s[1..]);
        UpperTrimLeading(s[1..]);
      }
    }
  }

  /** Upper-casing commutes with dropping trailing whitespace. */
  lemma {:induction false} UpperTrimTrailing(s: string)
    ensures ToUpper(TrimTrailing(s, IsWhitespace)) == TrimTrailing(ToUpper(s), IsWhitespace)
  {
    if s != [] {
      assert ToUpper(s)[|s| - 1] == UpperChar(s[|s| - 1]);
      if IsWhitespace(s[|s| - 1]) {
        assert ToUpper(s)[..|s| - 1] == ToUpper(s[..|s| - 1]);
        UpperTrimTrailing(s[..|s| - 1]);
      }
    }
  }

  /** Matching ignores case: inputs that upper-case alike normalise alike. */
  lemma FromIgnoresCase(s: string, t: string)
    requires ToUpper(s) == ToUpper(t)
    ensures Normalize(Some(s)) == Normalize(Some(t))
  {
    UpperTrimLeading(s);
    UpperTrimTrailing(TrimLeading(s, IsWhitespace));
    UpperTrimLeading(t);
    UpperTrimTrailing(TrimLeading(t, IsWhitespace));
  }

  /** Matching ignores surrounding whitespace. */
  lemma FromIgnoresPadding(p: string, s: string, q: string)
    requires IsBlank(p) && IsBlank(q)
    ensures Normalize(Some(p + s + q)) == Normalize(Some(s))
  {
    TrimIgnoresPadding(p, s, q, IsWhitespace);
  }

  /** Upper-casing twice is upper-casing once. */
  lemma UpperIdempotent(s: string)
    ensures ToUpper(ToUpper(s)) == ToUpper(s)
  {
    assert forall i :: 0 <= i < |s| ==> UpperChar(UpperChar(s[i])) == UpperChar(s[i]);
  }

  /** The accepted spellings neither start nor end with a blank. */
  lemma SpellingEnds(u: string, c: CarSegment)
    requires u == Name(c) || (c == EXTRALARGE && u in ExtraLargeSpellings)
    ensures u != [] && !IsWhitespace(u[0]) && !IsWhitespace(u[|u| - 1])
  {
  }

  /** Upper-cased text is in its normal form once its ends are not blank. */
  lemma UpperIsNormal(s: string)
    requires ToUpper(s) != [] && !IsWhitespace(ToUpper(s)[0]) && !IsWhitespace(ToUpper(s)[|s| - 1])
    ensures Normalize(Some(ToUpper(s))) == ToUpper(s)
  {
    var u := ToUpper(s);
    assert forall i :: 0 <= i < |u| ==> u[i] == UpperChar(s[i]);
    NormalFormOfUpper(u);
  }

  /** Every accepted spelling, in any case and with any blank padding, is read
      as its constant. */
  lemma FromAccepts(p: string, s: string, q: string, c: CarSegment)
    requires IsBlank(p) && IsBlank(q)
    requires ToUpper(s) == Name(c) || (c == EXTRALARGE && ToUpper(s) in ExtraLargeSpellings)
    ensures From(Some(p + s + q)) == Success(c)
  {
    var u := ToUpper(s);
    FromIgnoresPadding(p, s, q);
    UpperIdempotent(s);
    FromIgnoresCase(s, u);
    SpellingEnds(u, c);
    UpperIsNormal(s);
    FromNormalized(Some(p + s + q), c);
  }

  /** Input whose normal form is an accepted spelling is read as its constant. */
  lemma FromNormalized(s: Option<string>, c: CarSegment)
    requires Normalize(s) == Name(c) || (c == EXTRALARGE && Normalize(s) in ExtraLargeSpellings)
    ensures From(s) == Success(c)
  {
    LookupAccepts(Normalize(s), c);
  }

  lemma LookupAccepts(n: string, c: CarSegment)
    requires n == Name(c) || (c == EXTRALARGE && n in ExtraLargeSpellings)
    ensures Lookup(n) == Some(c)
  {
    match c
    case SMALL =>
    case MEDIUM =>
    case LARGE =>
    case EXTRALARGE =>
      assert n in ExtraLargeSpellings;
  }

  /** Every accepted spelling has at least five characters, so null and any
      shorter input (the empty text, an abbreviation like "XL") are rejected,
      the input quoted as given. */
  lemma FromRejectsShort(s: Option<string>)
    requires s.None? || |s.value| < 5
    ensures From(s) == Failure("Unknown car segment: " + Show(s))
  {
    NormalizeShortens(s);
    LookupRejectsShort(Normalize(s));
  }

  /** Normalising never lengthens the input. */
  lemma NormalizeShortens(s: Option<string>)
    ensures s.None? ==> Normalize(s) == ""
    ensures s.Some? ==> |Normalize(s)| <= |s.value|
  {
    if s.Some? {
      var lead := TrimLeading(s.value, IsWhitespace);
      assert |TrimTrailing(lead, IsWhitespace)| <= |lead| <= |s.value|;
    }
  }

  /** Text under five characters names no constant. */
  lemma LookupRejectsShort(n: string)
    requires |n| < 5
    ensures Lookup(n) == None
  {
    assert |"SMALL"| == 5 && |"LARGE"| == 5 && |"EXTRA"| == 5;
    assert forall u :: u in ExtraLargeSpellings ==> |u| >= 5;
  }
}
