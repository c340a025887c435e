/** `PricingStubController`: the stand-in pricing API, a guard chain in front
    of a fixed rate table. */
module PricingStub {
  import opened Outcomes
  import opened JavaText
  import opened Decimals
  import opened HttpExchange
  import opened ProviderModels

  const CategoryKey := "category"
  const CategoryRequired := "category is required"
  const CategoryBlank := "category cannot be blank"
  const InvalidCategory := "Invalid car category"

  /** The rate table, with the values `BigDecimal.valueOf(double)` gives for
      25.00, 45.99, 65.00 and 95.00 (the canonical double text: 25.0, 45.99,
      65.0, 95.0). */
  function RateFor(normalized: string): (r: Option<Decimal>)
    ensures r.Some? ==> r.value.unscaled > 0
    ensures r.Some? <==> normalized in {"SMALL", "MEDIUM", "LARGE", "EXTRA_LARGE"}
  {
    if normalized == "SMALL" then Some(Decimal(250, 1))
    else if normalized == "MEDIUM" then Some(Decimal(4599, 2))
    else if normalized == "LARGE" then Some(Decimal(650, 1))
    else if normalized == "EXTRA_LARGE" then Some(Decimal(950, 1))
    else None
  }

  /** The category as the table is keyed: trimmed and upper-cased. */
  function NormalizeCategory(category: string): string {
    ToUpper(Trim(category))
  }

  /** `getRentalRate`: no body or no "category" key, then a null or blank
      category, then an unknown one are rejected with 400, in that order; a
      known one is answered with the normalised category and its rate. */
  function GetRentalRate(request: Option<map<string, Option<string>>>): (r: Reply<RateResponse>)
    ensures request.None? || CategoryKey !in request.value ==> r == ErrorReply(BadRequest, CategoryRequired)
    ensures request.Some? && CategoryKey in request.value ==>
              var c := request.value[CategoryKey];
              if c.None? || IsBlank(c.value) then r == ErrorReply(BadRequest, CategoryBlank)
              else if RateFor(NormalizeCategory(c.value)).None? then r == ErrorReply(BadRequest, InvalidCategory)
              else r == OkReply(RateResponse(NormalizeCategory(c.value), RateFor(NormalizeCategory(c.value)).value))
    ensures r.OkReply? ==> r.body.ratePerDay.unscaled > 0
  {
    if request.None? || CategoryKey !in request.value then ErrorReply(BadRequest, CategoryRequired)
    else
      var category := request.value[CategoryKey];
      if category.None? || IsBlank(category.value) then ErrorReply(BadRequest, CategoryBlank)
      else
        var normalized := NormalizeCategory(category.value);
        match RateFor(normalized)
        case Some(rate) => OkReply(RateResponse(normalized, rate))
        case None => ErrorReply(BadRequest, InvalidCategory)
  }

  // ---- Properties ----

  /** A category that is not blank is looked up by its normal form. */
  lemma LooksUpNormalForm(category: string)
    requires !IsBlank(category)
    ensures var u := NormalizeCategory(category);
            GetRentalRate(Some(map[CategoryKey := Some(category)]))
            == if RateFor(u).Some? then OkReply(RateResponse(u, RateFor(u).value))
               else ErrorReply(BadRequest, InvalidCategory)
  {
  }

  /** Upper-cased text that starts and ends with a letter is normal already. */
  lemma UpperLetterEnds(s: string)
    requires s != [] && 'A' <= ToUpper(s)[0] <= 'Z' && 'A' <= ToUpper(s)[|s| - 1] <= 'Z'
    ensures !IsTrimmable(s[0]) && !IsTrimmable(s[|s| - 1]) && !IsWhitespace(s[0])
    ensures NormalizeCategory(s) == ToUpper(s)
  {
    assert ToUpper(s)[0] == UpperChar(s[0]) && ToUpper(s)[|s| - 1] == UpperChar(s[|s| - 1]);
    TrimUnchanged(s, IsTrimmable);
  }

  /** Every key of the table starts and ends with a letter. */
  lemma KeyEnds(u: string)
    requires u in {"SMALL", "MEDIUM", "LARGE", "EXTRA_LARGE"}
    ensures u != [] && 'A' <= u[0] <= 'Z' && 'A' <= u[|u| - 1] <= 'Z'
  {
  }

  /** Padding around text with letters at both ends is trimmed away. */
  lemma PaddingTrimmed(p: string, s: string, q: string)
    requires AllDropped(p, IsTrimmable) && AllDropped(q, IsTrimmable)
    requires s != [] && 'A' <= ToUpper(s)[0] <= 'Z' && 'A' <= ToUpper(s)[|s| - 1] <= 'Z'
    ensures NormalizeCategory(p + s + q) == ToUpper(s) && !IsBlank(p + s + q)
  {
    UpperLetterEnds(s);
    TrimIgnoresPadding(p, s, q, IsTrimmable);
    assert (p + s + q)[|p|] == s[0];
  }

  /** A known category, in any case and padded with control characters or
      blanks, is priced; the answer echoes it upper-cased. */
  lemma PricesPaddedCategory(p: string, s: string, q: string)
    requires AllDropped(p, IsTrimmable) && AllDropped(q, IsTrimmable)
    requires ToUpper(s) in {"SMALL", "MEDIUM", "LARGE", "EXTRA_LARGE"}
    ensures GetRentalRate(Some(map[CategoryKey := Some(p + s + q)]))
            == OkReply(RateResponse(ToUpper(s), RateFor(ToUpper(s)).value))
  {
    KeyEnds(ToUpper(s));
    PaddingTrimmed(p, s, q);
    LooksUpNormalForm(p + s + q);
  }

  /** "medium" in any padding is priced at 45.99. */
  lemma PricesMedium(p: string, q: string)
    requires AllDropped(p, IsTrimmable) && AllDropped(q, IsTrimmable)
    ensures GetRentalRate(Some(map[CategoryKey := Some(p + "medium" + q)]))
            == OkReply(RateResponse("MEDIUM", Decimal(4599, 2)))
  {
    assert ToUpper("medium") == "MEDIUM";
    PricesPaddedCategory(p, "medium", q);
  }

  /** The name the booking service sends for the extra-large segment,
      "EXTRALARGE", is not in the table, which spells it "EXTRA_LARGE". */
  lemma RejectsExtraLargeName()
    ensures GetRentalRate(Some(map[CategoryKey := Some("EXTRALARGE")]))
            == ErrorReply(BadRequest, InvalidCategory)
  {
    var s := "EXTRALARGE";
    assert s[0] == 'E' && s[|s| - 1] == 'E';
    TrimUnchanged(s, IsTrimmable);
    assert |NormalizeCategory(s)| == 10;
    LooksUpNormalForm(s);
  }

  /** The four prices the stub quotes, each at the scale
      `BigDecimal.valueOf(double)` gives it: 25.0, 45.99, 65.0 and 95.0. */
  lemma RateTable()
    ensures GetRentalRate(Some(map[CategoryKey := Some("SMALL")]))
            == OkReply(RateResponse("SMALL", Decimal(250, 1)))
    ensures GetRentalRate(Some(map[CategoryKey := Some("MEDIUM")]))
            == OkReply(RateResponse("MEDIUM", Decimal(4599, 2)))
    ensures GetRentalRate(Some(map[CategoryKey := Some("LARGE")]))
            == OkReply(RateResponse("LARGE", Decimal(650, 1)))
    ensures GetRentalRate(Some(map[CategoryKey := Some("EXTRA_LARGE")]))
            == OkReply(RateResponse("EXTRA_LARGE", Decimal(950, 1)))
  {
    PricesKey("SMALL");
    PricesKey("MEDIUM");
    PricesKey("LARGE");
    PricesKey("EXTRA_LARGE");
  }

  /** A key of the table sent as it is written is priced. */
  lemma PricesKey(key: string)
    requires key in {"SMALL", "MEDIUM", "LARGE", "EXTRA_LARGE"}
    ensures GetRentalRate(Some(map[CategoryKey := Some(key)])) == OkReply(RateResponse(key, RateFor(key).value))
  {
    KeyIsNormal(key);
    LooksUpNormalForm(key);
  }

  /** A key of the table is not blank and is its own normal form. */
  lemma KeyIsNormal(key: string)
    requires key in {"SMALL", "MEDIUM", "LARGE", "EXTRA_LARGE"}
    ensures !IsBlank(key) && NormalizeCategory(key) == key
  {
    KeyEnds(key);
    if key == "SMALL" {
      UpperUnchanged("SMALL");
    } else if key == "MEDIUM" {
      UpperUnchanged("MEDIUM");
    } else if key == "LARGE" {
      UpperUnchanged("LARGE");
    } else {
      UpperUnchanged("EXTRA_LARGE");
    }
    UpperLetterEnds(key);
  }
}
