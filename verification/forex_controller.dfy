/** The two request handlers of the forex controller, `fetchExchangeRates`
    and `convertCurrency`, as functions from their inputs (query fields,
    configured API key, foreign validators, settled upstream call) to the
    trace of effects they produce. */
module ForexController {
  import opened Js
  import opened ErrorValues
  import opened Effects
  import Paths

  /** The fields `convertCurrency` destructures from `req.query`. */
  datatype Query = Query(from: Param, to: Param, amount: Param)

  /** The foreign functions the conversion handler calls, left
      uninterpreted: the currency-code validator, `validator.isFloat`, and
      the string-to-number coercion JavaScript applies in `amount < 0`.
      Each validator receives the raw field, `undefined` included, and may
      throw instead of answering. */
  datatype Library = Library(
    isCurrencyCode: Param -> Call<bool>,
    isFloat: Param -> Call<bool>,
    toNumber: string -> Number)

  /** How the awaited `axios.get` settles: it resolves with a response whose
      `data` is the body, or it rejects (transport error or non-2xx status). */
  datatype Outcome<D> = Ok(data: D) | Fail

  const RatesUrl: string := "https://open.er-api.com/v6/latest"

  /** The pair-conversion endpoint, fixed when the module loads from the
      configured API key; an unset key is interpolated as "undefined". */
  function ConversionBase(apiKey: Param): string {
    "https://v6.exchangerate-api.com/v6/" + Interpolate(apiKey) + "/pair"
  }

  /** The query fields exactly as the template literal renders them. */
  function RawFields(q: Query): Paths.Pair {
    Paths.Pair(Interpolate(q.from), Interpolate(q.to), Interpolate(q.amount))
  }

  /** The conversion request URL, built from the raw query fields. */
  function ConversionUrl(apiKey: Param, q: Query): string {
    ConversionBase(apiKey) + "/" + Paths.PairPath(RawFields(q))
  }

  /** The errors the controller reports, one per `createError` call site. */
  datatype Failure =
    | MissingParameters
    | IncorrectCurrencyCode
    | IncorrectCurrencyAmount
    | RatesUnavailable
    | ConversionFailed

  /** The status and message each call site passes to `createError`. */
  function ErrorOf(f: Failure): ErrorValue {
    match f
    case MissingParameters => CreateError(400, "Missing query parameters")
    case IncorrectCurrencyCode => CreateError(400, "Incorrect currency code")
    case IncorrectCurrencyAmount => CreateError(400, "Incorrect currency amount")
    case RatesUnavailable => CreateError(500, "Failed to fetch exchange rates")
    case ConversionFailed => CreateError(400, "Failed to convert currency")
  }

  /** The errors reported for a sequence of failures, in order. */
  function Reports(fs: seq<Failure>): (es: seq<ErrorValue>)
    ensures |es| == |fs|
    ensures forall i :: 0 <= i < |fs| ==> es[i] == ErrorOf(fs[i])
  {
    seq(|fs|, i requires 0 <= i < |fs| => ErrorOf(fs[i]))
  }

  /** The presence check passes: all three fields are truthy. */
  predicate AllPresent(q: Query) {
    Truthy(q.from) && Truthy(q.to) && Truthy(q.amount)
  }

  /** `!isCurrencyCode(from) || !isCurrencyCode(to)`, where `||` skips the
      second call once the first has failed. Returns(true) means the
      currency-code check fails. */
  function CodeCheckFails(lib: Library, q: Query): (r: Call<bool>)
    ensures r == Returns(true) <==>
      lib.isCurrencyCode(q.from) == Returns(false) ||
      (lib.isCurrencyCode(q.from) == Returns(true) && lib.isCurrencyCode(q.to) == Returns(false))
    ensures r.Throws? <==>
      lib.isCurrencyCode(q.from).Throws? ||
      (lib.isCurrencyCode(q.from) == Returns(true) && lib.isCurrencyCode(q.to).Throws?)
  {
    match lib.isCurrencyCode(q.from)
    case Throws => Throws
    case Returns(fromOk) =>
      if !fromOk then Returns(true)
      else
        match lib.isCurrencyCode(q.to)
        case Throws => Throws
        case Returns(toOk) => Returns(!toOk)
  }

  /** JavaScript's coercion of the amount field to a number. */
  function Coerce(lib: Library, p: Param): Number {
    match p
    case Undefined => NaN
    case Str(s) => lib.toNumber(s)
  }

  /** `!validator.isFloat(amount) || amount < 0`, where `||` skips the
      comparison once `isFloat` has refused. Returns(true) means the amount
      check fails. */
  function AmountCheckFails(lib: Library, amount: Param): (r: Call<bool>)
    ensures r == Returns(true) <==>
      lib.isFloat(amount) == Returns(false) ||
      (lib.isFloat(amount) == Returns(true) && BelowZero(Coerce(lib, amount)))
    ensures r.Throws? <==> lib.isFloat(amount).Throws?
  {
    match lib.isFloat(amount)
    case Throws => Throws
    case Returns(isFloat) => Returns(!isFloat || BelowZero(Coerce(lib, amount)))
  }

  /** The position of each failure in the conversion handler's fixed order:
      presence, currency code, amount, then the upstream failure. */
  function Rank(f: Failure): nat {
    match f
    case MissingParameters => 0
    case IncorrectCurrencyCode => 1
    case IncorrectCurrencyAmount => 2
    case _ => 3
  }

  /** The failures appear in the fixed order, each at most once. */
  predicate InFixedOrder(fs: seq<Failure>) {
    forall i, j :: 0 <= i < j < |fs| ==> Rank(fs[i]) < Rank(fs[j])
  }

  /** The failures of the checks that failed, in the order the checks run. */
  function InCheckOrder(missing: bool, badCode: bool, badAmount: bool): (fs: seq<Failure>)
    ensures |fs| <= 3 && InFixedOrder(fs)
    ensures forall f :: f in fs ==> Rank(f) < 3
    ensures MissingParameters in fs <==> missing
    ensures IncorrectCurrencyCode in fs <==> badCode
    ensures IncorrectCurrencyAmount in fs <==> badAmount
    ensures missing ==> fs[0] == MissingParameters
  {
    (if missing then [MissingParameters] else [])
    + (if badCode then [IncorrectCurrencyCode] else [])
    + (if badAmount then [IncorrectCurrencyAmount] else [])
  }

  /** The outcome of the three checks: the failures they report, in order,
      and whether a foreign call threw before the checks were done. */
  datatype Validation = Validation(failures: seq<Failure>, threw: bool)

  /** The three checks of `convertCurrency`, run one after the other with no
      early return: each failing check reports its own error and the next
      check runs anyway. Only a throwing validator stops the sequence. */
  function Validate(lib: Library, q: Query): (v: Validation)
    ensures |v.failures| <= 3 && InFixedOrder(v.failures)
    ensures forall f :: f in v.failures ==> Rank(f) < 3
    ensures MissingParameters in v.failures <==> !AllPresent(q)
    ensures !AllPresent(q) ==> v.failures[0] == MissingParameters
    ensures IncorrectCurrencyCode in v.failures <==>
      lib.isCurrencyCode(q.from) == Returns(false) ||
      (lib.isCurrencyCode(q.from) == Returns(true) && lib.isCurrencyCode(q.to) == Returns(false))
    ensures IncorrectCurrencyAmount in v.failures <==>
      CodeCheckFails(lib, q).Returns? &&
      (lib.isFloat(q.amount) == Returns(false) ||
       (lib.isFloat(q.amount) == Returns(true) && BelowZero(Coerce(lib, q.amount))))
    ensures v.threw <==>
      CodeCheckFails(lib, q).Throws? ||
      (CodeCheckFails(lib, q).Returns? && lib.isFloat(q.amount).Throws?)
  {
    var code := CodeCheckFails(lib, q);
    // a throw in the currency-code check leaves the amount check unreached
    var amount := if code.Throws? then Throws else AmountCheckFails(lib, q.amount);
    Validation(
      InCheckOrder(!AllPresent(q), code == Returns(true), amount == Returns(true)),
      code.Throws? || amount.Throws?)
  }

  /** The `try` block both handlers share: await the upstream call, then
      either forward its body with `res.json` or report `failure` from the
      `catch`. Exactly one of the two happens, after the request. */
  function Attempt<D>(url: string, upstream: Outcome<D>, failure: Failure): (t: seq<Effect<D>>)
    ensures |t| == 2 && t[0] == UpstreamGet(url)
    ensures upstream.Ok? ==> t[1] == Json(upstream.data)
    ensures upstream.Fail? ==> t[1] == Next(ErrorOf(failure))
    ensures Requests(t) == [url]
    ensures upstream.Ok? ==> Bodies(t) == [upstream.data] && Errors(t) == []
    ensures upstream.Fail? ==> Bodies(t) == [] && Errors(t) == [ErrorOf(failure)]
    ensures !Rejected(t)
  {
    var settle := match upstream
      case Ok(d) => Json(d)
      case Fail => Next(ErrorOf(failure));
    var t := [UpstreamGet(url), settle];
    assert t[1..] == [settle] && t[1..][1..] == [];
    assert !Rejected(t[1..]);
    t
  }

  /** `fetchExchangeRates`: one request to the rates endpoint; its body is
      forwarded unchanged, or a 500 error is reported. */
  function FetchExchangeRates<D>(upstream: Outcome<D>): (t: seq<Effect<D>>)
    ensures Requests(t) == [RatesUrl] && t[0] == UpstreamGet(RatesUrl)
    ensures upstream.Ok? ==> Bodies(t) == [upstream.data] && Errors(t) == []
    ensures upstream.Fail? ==> Bodies(t) == [] && Errors(t) == [ErrorOf(RatesUnavailable)]
    ensures !Rejected(t)
  {
    Attempt(RatesUrl, upstream, RatesUnavailable)
  }

  /** The failures one conversion run reports: those of the checks, then the
      upstream failure when the request was made and failed. */
  function RunFailures<D>(v: Validation, upstream: Outcome<D>): seq<Failure> {
    v.failures + (if !v.threw && upstream.Fail? then [ConversionFailed] else [])
  }

  /** What `convertCurrency` does once its checks are over: one `next` call
      per reported failure, in order, then either the rejection (a validator
      threw) or the `try` block, whose single outcome ends the run. */
  function AfterChecks<D>(v: Validation, url: string, upstream: Outcome<D>): (t: seq<Effect<D>>)
    ensures |v.failures| < |t|
    ensures forall i :: 0 <= i < |v.failures| ==> t[i] == Next(ErrorOf(v.failures[i]))
    ensures Errors(t) == Reports(RunFailures(v, upstream))
    ensures Bodies(t) == (if !v.threw && upstream.Ok? then [upstream.data] else [])
    ensures Requests(t) == (if v.threw then [] else [url])
    ensures Rejected(t) <==> v.threw
    ensures v.threw ==> |t| == |v.failures| + 1 && t[|v.failures|] == Rejects
    ensures !v.threw ==> |t| == |v.failures| + 2 && t[|v.failures|] == UpstreamGet(url)
    ensures !v.threw && upstream.Ok? ==> t[|t| - 1] == Json(upstream.data)
    ensures !v.threw && upstream.Fail? ==> t[|t| - 1] == Next(ErrorOf(ConversionFailed))
  {
    var es := Reports(v.failures);
    if v.threw then
      var tail: seq<Effect<D>> := [Rejects];
      assert tail[1..] == [];
      assert Reports(RunFailures(v, upstream)) == es;
      NotifyThen(es, tail);
      Notify(es) + tail
    else
      var tail := Attempt(url, upstream, ConversionFailed);
      NotifyThen(es, tail);
      assert Reports(RunFailures(v, upstream)) == es + Errors(tail);
      Notify(es) + tail
  }

  /** `convertCurrency`: the validation errors, in order, then (unless a
      validator threw) the upstream request built from the raw fields and
      its single outcome. A failed check does not prevent the request. */
  function ConvertCurrency<D>(lib: Library, apiKey: Param, q: Query, upstream: Outcome<D>): (t: seq<Effect<D>>)
    ensures Errors(t) == Reports(RunFailures(Validate(lib, q), upstream))
    ensures Bodies(t) == (if !Validate(lib, q).threw && upstream.Ok? then [upstream.data] else [])
    ensures Requests(t) == (if Validate(lib, q).threw then [] else [ConversionUrl(apiKey, q)])
    ensures Rejected(t) <==> Validate(lib, q).threw
  {
    AfterChecks(Validate(lib, q), ConversionUrl(apiKey, q), upstream)
  }

  /** Every foreign validator the conversion handler actually calls on `q`
      answers rather than throws; the `to` validator is called only once
      `from` has been accepted. */
  predicate Answers(lib: Library, q: Query) {
    && lib.isCurrencyCode(q.from).Returns?
    && (lib.isCurrencyCode(q.from) == Returns(true) ==> lib.isCurrencyCode(q.to).Returns?)
    && lib.isFloat(q.amount).Returns?
  }

  /** The request passes all three checks: every field is present, both
      codes are accepted, and the amount is a float that is not below zero. */
  predicate PassesChecks(lib: Library, q: Query) {
    && AllPresent(q)
    && lib.isCurrencyCode(q.from) == Returns(true)
    && lib.isCurrencyCode(q.to) == Returns(true)
    && lib.isFloat(q.amount) == Returns(true)
    && !BelowZero(Coerce(lib, q.amount))
  }

  /** A request passes every check exactly when validation reports nothing
      and no validator throws. */
  lemma PassesChecksIffClean(lib: Library, q: Query)
    ensures PassesChecks(lib, q) <==> Validate(lib, q) == Validation([], false)
  {
  }

  /** A request that passes every check produces no validation error: the
      run is the upstream request followed by the forwarded body or the
      conversion error, and nothing else. */
  lemma CleanConversion<D>(lib: Library, apiKey: Param, q: Query, upstream: Outcome<D>)
    requires PassesChecks(lib, q)
    ensures ConvertCurrency(lib, apiKey, q, upstream) ==
      [UpstreamGet(ConversionUrl(apiKey, q))] +
      (if upstream.Ok? then [Json(upstream.data)] else [Next(ErrorOf(ConversionFailed))])
  {
  }

  /** When any field is absent or empty, the first effect of the conversion
      handler is the missing-parameters error, whatever else happens. */
  lemma MissingReportedFirst<D>(lib: Library, apiKey: Param, q: Query, upstream: Outcome<D>)
    requires !AllPresent(q)
    ensures ConvertCurrency(lib, apiKey, q, upstream)[0] == Next(ErrorOf(MissingParameters))
  {
  }

  /** When the validators answer, the conversion handler requests the
      upstream exactly once, with the URL built from the raw fields, whether
      or not validation failed; afterwards exactly one outcome follows: the
      upstream body on success, the conversion error on failure. At most
      three validation errors precede the request. */
  lemma UpstreamAlwaysRequested<D>(lib: Library, apiKey: Param, q: Query, upstream: Outcome<D>)
    requires Answers(lib, q)
    ensures var t := ConvertCurrency(lib, apiKey, q, upstream);
      && Requests(t) == [ConversionUrl(apiKey, q)]
      && 2 <= |t| <= 5
      && t[|t| - 2] == UpstreamGet(ConversionUrl(apiKey, q))
      && (upstream.Ok? ==> t[|t| - 1] == Json(upstream.data))
      && (upstream.Fail? ==> t[|t| - 1] == Next(ErrorOf(ConversionFailed)))
      && forall i :: 0 <= i < |t| - 2 ==> t[i].Next?
  {
  }

  /** The validators are the only way the conversion handler can stop short
      of the upstream request: it rejects exactly when a validator it calls
      throws, and a rejected run makes no request. */
  lemma RejectsOnlyOnThrow<D>(lib: Library, apiKey: Param, q: Query, upstream: Outcome<D>)
    ensures var t := ConvertCurrency(lib, apiKey, q, upstream);
      && (Rejected(t) <==> !Answers(lib, q))
      && (Rejected(t) ==> Requests(t) == [])
  {
  }

  /** Different failures are reported as different errors, so the errors of
      a run determine its failures. */
  lemma ErrorOfInjective(f: Failure, g: Failure)
    ensures ErrorOf(f) == ErrorOf(g) <==> f == g
  {
  }

  /** The failures of one conversion run: each failing validation check
      reports once, presence before currency code before amount, and the
      conversion failure, if any, comes last. */
  lemma ConversionFailuresOrdered<D>(lib: Library, q: Query, upstream: Outcome<D>)
    ensures var fs := RunFailures(Validate(lib, q), upstream);
      && |fs| <= 4
      && InFixedOrder(fs)
      && forall f :: f in fs ==> Rank(f) < 3 || f == ConversionFailed
  {
    var v := Validate(lib, q);
    if RunFailures(v, upstream) != v.failures {
      FailureComesLast(v.failures);
    }
  }

  /** Appending the upstream failure to validation failures keeps the order. */
  lemma FailureComesLast(fs: seq<Failure>)
    requires InFixedOrder(fs) && forall f :: f in fs ==> Rank(f) < 3
    ensures InFixedOrder(fs + [ConversionFailed])
  {
    var gs := fs + [ConversionFailed];
    forall i, j | 0 <= i < j < |gs|
      ensures Rank(gs[i]) < Rank(gs[j])
    {
      assert gs[i] == fs[i];
      if j < |fs| {
        assert gs[j] == fs[j];
      } else {
        assert fs[i] in fs;
      }
    }
  }

  /** The conversion URL is the endpoint followed by the raw fields joined
      by `/`; splitting that path at `/` gives back the request's
      from/to/amount exactly when none contains a `/`. No check forbids one,
      so a field such as "USD/EUR" shifts the path segments. */
  lemma ConversionPathReadBack(apiKey: Param, q: Query)
    ensures var url, prefix := ConversionUrl(apiKey, q), ConversionBase(apiKey) + "/";
      && prefix <= url
      && (Paths.ReadPair(url[|prefix|..]) == Some(RawFields(q)) <==>
          '/' !in Interpolate(q.from) && '/' !in Interpolate(q.to) && '/' !in Interpolate(q.amount))
  {
    var url, prefix := ConversionUrl(apiKey, q), ConversionBase(apiKey) + "/";
    assert url[|prefix|..] == Paths.PairPath(RawFields(q));
    Paths.ReadPairOfPath(RawFields(q));
  }
}
