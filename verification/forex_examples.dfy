/** The controller's documented scenarios, each stated for every library
    whose answers on the scenario's inputs are the ones the scenario
    describes. */
module ForexExamples {
  import opened Js
  import opened Effects
  import opened ForexController

  const Usd: Param := Str("USD")
  const Eur: Param := Str("EUR")

  /** Both currency codes are accepted. */
  predicate AcceptsUsdEur(lib: Library) {
    lib.isCurrencyCode(Usd) == Returns(true) && lib.isCurrencyCode(Eur) == Returns(true)
  }

  /** "100" is a float of value 100. */
  predicate AcceptsHundred(lib: Library) {
    lib.isFloat(Str("100")) == Returns(true) && lib.toNumber("100") == Finite(100.0)
  }

  /** With no API key configured, the pair endpoint carries "undefined" in
      the key's place. */
  lemma EndpointWithoutKey()
    ensures ConversionBase(Undefined) == "https://v6.exchangerate-api.com/v6/undefined/pair"
  {
  }

  /** The conversion URL for three given strings. */
  lemma UrlOfStrings(apiKey: Param, f: string, t: string, a: string)
    ensures ConversionUrl(apiKey, Query(Str(f), Str(t), Str(a))) == ConversionBase(apiKey) + ("/" + f + "/" + t + "/" + a)
  {
  }

  /** The request paths of the scenarios below, spelled out. A helper that
      settles these string-literal equalities once, in a small context, so
      the scenario lemmas need not. */
  lemma ScenarioPaths()
    ensures "/" + "USD" + "/" + "EUR" + "/" + "100" == "/USD/EUR/100"
    ensures "/" + "USD" + "/" + "EUR" + "/" + "1.234" == "/USD/EUR/1.234"
    ensures "/" + "USD" + "/" + "abc" + "/" + "100" == "/USD/abc/100"
    ensures "/" + "USD" + "/" + "EUR" + "/" + "abc" == "/USD/EUR/abc"
    ensures "/" + "USD" + "/" + "EUR" + "/" + "-5" == "/USD/EUR/-5"
    ensures "/" + "USD" + "/" + "undefined" + "/" + "100" == "/USD/undefined/100"
  {
  }

  /** Rates: a successful upstream call is forwarded unchanged; a failed
      one reports the 500 error instead of a body. */
  lemma FetchScenarios<D>(d: D)
    ensures FetchExchangeRates(Ok(d)) == [UpstreamGet("https://open.er-api.com/v6/latest"), Json(d)]
    ensures FetchExchangeRates<D>(Fail) ==
      [UpstreamGet("https://open.er-api.com/v6/latest"), Next(ErrorOf(RatesUnavailable))]
  {
  }

  /** A valid conversion: one request to the pair endpoint, then the body. */
  lemma ConvertSucceeds<D>(lib: Library, apiKey: Param, d: D)
    requires AcceptsUsdEur(lib) && AcceptsHundred(lib)
    ensures ConvertCurrency(lib, apiKey, Query(Usd, Eur, Str("100")), Ok(d)) ==
      [UpstreamGet(ConversionBase(apiKey) + "/USD/EUR/100"), Json(d)]
  {
    UrlOfStrings(apiKey, "USD", "EUR", "100");
    ScenarioPaths();
    CleanConversion(lib, apiKey, Query(Usd, Eur, Str("100")), Ok(d));
  }

  /** A valid conversion whose upstream call fails reports the conversion
      error instead of a body. */
  lemma ConvertFails<D>(lib: Library, apiKey: Param)
    requires AcceptsUsdEur(lib) && AcceptsHundred(lib)
    ensures ConvertCurrency<D>(lib, apiKey, Query(Usd, Eur, Str("100")), Fail) ==
      [UpstreamGet(ConversionBase(apiKey) + "/USD/EUR/100"),
       Next(ErrorOf(ConversionFailed))]
  {
    UrlOfStrings(apiKey, "USD", "EUR", "100");
    ScenarioPaths();
    CleanConversion<D>(lib, apiKey, Query(Usd, Eur, Str("100")), Fail);
  }

  /** Nothing in the amount check limits decimal places: an amount with
      three decimals that `isFloat` accepts converts without any error. */
  lemma ThreeDecimalsAccepted<D>(lib: Library, apiKey: Param, d: D)
    requires AcceptsUsdEur(lib)
    requires lib.isFloat(Str("1.234")) == Returns(true) && lib.toNumber("1.234") == Finite(1.234)
    ensures ConvertCurrency(lib, apiKey, Query(Usd, Eur, Str("1.234")), Ok(d)) ==
      [UpstreamGet(ConversionBase(apiKey) + "/USD/EUR/1.234"), Json(d)]
  {
    UrlOfStrings(apiKey, "USD", "EUR", "1.234");
    ScenarioPaths();
    CleanConversion(lib, apiKey, Query(Usd, Eur, Str("1.234")), Ok(d));
  }

  /** An unknown target currency is reported, yet the request is still sent
      with the raw code and `res.json` is called with its body as well: one
      run both passes an error to `next` and tries to send a success body. */
  lemma IncorrectCodeStillConverts<D>(lib: Library, apiKey: Param, d: D)
    requires lib.isCurrencyCode(Usd) == Returns(true) && lib.isCurrencyCode(Str("abc")) == Returns(false)
    requires AcceptsHundred(lib)
    ensures ConvertCurrency(lib, apiKey, Query(Usd, Str("abc"), Str("100")), Ok(d)) ==
      [Next(ErrorOf(IncorrectCurrencyCode)),
       UpstreamGet(ConversionBase(apiKey) + "/USD/abc/100"),
       Json(d)]
  {
    var q := Query(Usd, Str("abc"), Str("100"));
    OnlyTargetCodeFails(lib);
    UrlOfStrings(apiKey, "USD", "abc", "100");
    ScenarioPaths();
    assert ConvertCurrency(lib, apiKey, q, Ok(d)) ==
      AfterChecks(Validation([IncorrectCurrencyCode], false), ConversionUrl(apiKey, q), Ok(d));
  }

  /** With "abc" refused as a target code, the code check is the only one
      that fails. */
  lemma OnlyTargetCodeFails(lib: Library)
    requires lib.isCurrencyCode(Usd) == Returns(true) && lib.isCurrencyCode(Str("abc")) == Returns(false)
    requires AcceptsHundred(lib)
    ensures Validate(lib, Query(Usd, Str("abc"), Str("100"))) == Validation([IncorrectCurrencyCode], false)
  {
  }

  /** With both codes accepted and a non-empty amount that `isFloat`
      refuses or that is below zero, the amount check is the only one that
      fails. */
  lemma OnlyAmountFails(lib: Library, a: string)
    requires AcceptsUsdEur(lib) && |a| > 0
    requires lib.isFloat(Str(a)) == Returns(false) ||
      (lib.isFloat(Str(a)) == Returns(true) && BelowZero(lib.toNumber(a)))
    ensures Validate(lib, Query(Usd, Eur, Str(a))) == Validation([IncorrectCurrencyAmount], false)
  {
  }

  /** A run whose checks report a single failure and do not throw reports
      that failure, then the conversion error if the request fails. */
  lemma SingleFailureRun<D>(f: Failure, url: string, upstream: Outcome<D>)
    ensures var t := AfterChecks(Validation([f], false), url, upstream);
      && Errors(t) == [ErrorOf(f)] + (if upstream.Fail? then [ErrorOf(ConversionFailed)] else [])
      && Requests(t) == [url]
  {
    var es := Reports(RunFailures(Validation([f], false), upstream));
    if upstream.Ok? {
      assert es == [ErrorOf(f)];
    } else {
      assert es == [ErrorOf(f), ErrorOf(ConversionFailed)];
    }
  }

  /** A non-numeric amount draws the amount error, and the request is sent
      regardless. */
  lemma NonNumericAmountReported<D>(lib: Library, apiKey: Param, upstream: Outcome<D>)
    requires AcceptsUsdEur(lib) && lib.isFloat(Str("abc")) == Returns(false)
    ensures var t := ConvertCurrency(lib, apiKey, Query(Usd, Eur, Str("abc")), upstream);
      && Errors(t) == [ErrorOf(IncorrectCurrencyAmount)] +
           (if upstream.Fail? then [ErrorOf(ConversionFailed)] else [])
      && Requests(t) == [ConversionBase(apiKey) + "/USD/EUR/abc"]
  {
    var q := Query(Usd, Eur, Str("abc"));
    OnlyAmountFails(lib, "abc");
    SingleFailureRun(IncorrectCurrencyAmount, ConversionUrl(apiKey, q), upstream);
    UrlOfStrings(apiKey, "USD", "EUR", "abc");
    ScenarioPaths();
  }

  /** A negative amount draws the amount error, and the request is sent
      regardless. */
  lemma NegativeAmountReported<D>(lib: Library, apiKey: Param, upstream: Outcome<D>)
    requires AcceptsUsdEur(lib)
    requires lib.isFloat(Str("-5")) == Returns(true) && lib.toNumber("-5") == Finite(-5.0)
    ensures var t := ConvertCurrency(lib, apiKey, Query(Usd, Eur, Str("-5")), upstream);
      && Errors(t) == [ErrorOf(IncorrectCurrencyAmount)] +
           (if upstream.Fail? then [ErrorOf(ConversionFailed)] else [])
      && Requests(t) == [ConversionBase(apiKey) + "/USD/EUR/-5"]
  {
    var q := Query(Usd, Eur, Str("-5"));
    OnlyAmountFails(lib, "-5");
    SingleFailureRun(IncorrectCurrencyAmount, ConversionUrl(apiKey, q), upstream);
    UrlOfStrings(apiKey, "USD", "EUR", "-5");
    ScenarioPaths();
  }

  /** A missing target currency is reported first. What follows depends on
      the validator's treatment of `undefined`: if it throws, the handler
      rejects before any request; if it refuses, the code error follows and
      the request goes out with "undefined" in the path. */
  lemma MissingTarget<D>(lib: Library, apiKey: Param, upstream: Outcome<D>)
    requires lib.isCurrencyCode(Usd) == Returns(true) && AcceptsHundred(lib)
    ensures var t := ConvertCurrency(lib, apiKey, Query(Usd, Undefined, Str("100")), upstream);
      && t[0] == Next(ErrorOf(MissingParameters))
      && (lib.isCurrencyCode(Undefined).Throws? ==> t == [t[0], Rejects])
      && (lib.isCurrencyCode(Undefined) == Returns(false) ==>
            t[1] == Next(ErrorOf(IncorrectCurrencyCode)) &&
            Requests(t) == [ConversionBase(apiKey) + "/USD/undefined/100"])
  {
    var q := Query(Usd, Undefined, Str("100"));
    var v := Validate(lib, q);
    MissingTargetChecks(lib);
    MissingReportedFirst(lib, apiKey, q, upstream);
    UrlOfStrings(apiKey, "USD", "undefined", "100");
    ScenarioPaths();
    assert ConvertCurrency(lib, apiKey, q, upstream) == AfterChecks(v, ConversionUrl(apiKey, q), upstream);
  }

  /** The checks on a query without a target currency: presence fails, and
      the code check throws, fails or passes with the validator's answer on
      `undefined`. */
  lemma MissingTargetChecks(lib: Library)
    requires lib.isCurrencyCode(Usd) == Returns(true) && AcceptsHundred(lib)
    ensures var v := Validate(lib, Query(Usd, Undefined, Str("100")));
      && (lib.isCurrencyCode(Undefined).Throws? ==> v == Validation([MissingParameters], true))
      && (lib.isCurrencyCode(Undefined) == Returns(false) ==>
            v == Validation([MissingParameters, IncorrectCurrencyCode], false))
      && (lib.isCurrencyCode(Undefined) == Returns(true) ==> v == Validation([MissingParameters], false))
  {
  }
}
