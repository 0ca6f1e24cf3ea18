# nodejs-forex: the forex controller and the error responder in Dafny

This project models the decision logic of the nodejs-forex Express service:

- `fetchExchangeRates`, which proxies the upstream "latest rates" endpoint;
- `convertCurrency`, which checks the `from`, `to` and `amount` query fields and then proxies the upstream pair-conversion endpoint;
- the terminal error-handling middleware, which turns an error passed to `next` into a JSON error response, when no response has been sent yet.

Each handler is a pure function. Its inputs are:

- the query fields;
- the configured API key;
- the foreign validators;
- how the awaited upstream call settled: `Ok(data)` or `Fail`.

It returns the ordered trace of effects the handler produces (module `Effects`):

- `Next(err)`: a call to `next(err)`;
- `UpstreamGet(url)`: a call to `axios.get(url)`;
- `Json(data)`: a call to `res.json(data)`;
- `Rejects`: the handler's promise rejects because a foreign call threw outside the `try`.

The upstream body has a type parameter `D`. Handlers cannot inspect it, so it is forwarded unchanged.

The three checks of `convertCurrency` do not return early. Each failing check calls `next` with its own error, and the upstream request is then sent anyway, built from the raw query fields. One run can therefore pass several errors to `next`, or pass an error to `next` and then call `res.json` with a success body. The model follows the code here. An alternative in which a failed check returns at once and skips the request is not modelled.

The foreign functions are fields of a `Library` value and are left uninterpreted:

- the currency-code validator;
- `validator.isFloat`;
- JavaScript's string-to-number coercion in `amount < 0`.

Either validator may throw instead of answering (`Call.Throws`). `validator.isFloat` rejects a non-string argument that way. Because the checks sit outside the `try`, a throw ends the run before any request.

Modules:

- `Js`: the JavaScript value semantics the handlers rely on: truthiness, template-literal interpolation (`undefined` renders as "undefined"), and `x < 0` on numbers including NaN and the infinities.
- `ErrorValues`: the `{status?, message?}` errors.
- `Effects`: traces and their views `Errors`, `Bodies`, `Requests` and `Rejected`.
- `Paths`: splitting a `from/to/amount` path at `/` back into its fields. This is the inverse of the string concatenation that builds the URL.
- `ForexController`: both handlers.
- `ErrorResponder`: the middleware.
- `ForexExamples`: the documented request scenarios.

## Model

| member | source | states |
|---|---|---|
| ForexController.FetchExchangeRates | src/controllers/forex.controller.js:14-22 | exactly one request, to the rates URL; on success the body is forwarded unchanged and no error is reported; on failure exactly the 500 "Failed to fetch exchange rates" error and no body; never rejects |
| ForexController.Attempt | src/controllers/forex.controller.js:39-47 | the shared `try` block: the request, then exactly one of the forwarded body (success) or the given failure (failure) |
| ForexController.CodeCheckFails | src/controllers/forex.controller.js:31 | the currency-code check fails iff `from` is refused, or `from` is accepted and `to` is refused; it throws iff the first call throws or the second call, reached only when `from` is accepted, throws |
| ForexController.AmountCheckFails | src/controllers/forex.controller.js:35 | the amount check fails iff `isFloat` refuses, or accepts and the coerced value is below zero; it throws iff `isFloat` throws |
| ForexController.Validate | src/controllers/forex.controller.js:27-37 | at most three failures, in the fixed order presence, code, amount, each at most once; missing-parameters is reported iff a field is falsy, and then first; code and amount errors iff their checks fail (the amount check only when the code check did not throw); the run stops iff a validator throws |
| ForexController.AfterChecks | src/controllers/forex.controller.js:27-47 | one `next` per failure in order, then either the rejection (exactly when a validator threw) or the request followed by exactly one of the body or the conversion error |
| ForexController.ConvertCurrency | src/controllers/forex.controller.js:24-48 | the reported errors are the validation failures then, if the request was made and failed, the conversion error; a body is forwarded iff the request was made and succeeded; the request is made, with the URL of the raw fields, iff no validator threw |
| ForexController.PassesChecksIffClean | src/controllers/forex.controller.js:27-37 | a request passes all three checks iff validation reports nothing and nothing throws |
| ForexController.CleanConversion | src/controllers/forex.controller.js:39-47 | a request that passes all checks produces exactly the request followed by the body, or by the 400 "Failed to convert currency" error |
| ForexController.MissingReportedFirst | src/controllers/forex.controller.js:27-29 | when any field is absent or empty, the first effect is `next` with the missing-parameters error |
| ForexController.UpstreamAlwaysRequested | src/controllers/forex.controller.js:39-40 | when every validator the handler calls answers (the `to` validator is not called once `from` is refused), the request is made exactly once with the raw-field URL, whether or not validation failed; it is preceded only by `next` calls (at most three) and followed by exactly one outcome |
| ForexController.RejectsOnlyOnThrow | src/controllers/forex.controller.js:31-37 | the handler rejects iff a validator it actually calls throws (the `to` validator only once `from` is accepted), and a rejected run makes no request |
| ForexController.ErrorOfInjective | src/controllers/forex.controller.js:20-46 | the five `createError` call sites produce pairwise different errors, so the reported errors determine the failures |
| ForexController.ConversionFailuresOrdered | src/controllers/forex.controller.js:27-47 | the failures of one run number at most four, are strictly ordered presence, code, amount, conversion failure, and the conversion failure can only come last |
| ForexController.ConversionPathReadBack | src/controllers/forex.controller.js:40 | the conversion URL is the endpoint, a `/`, then the raw fields joined by `/`; splitting that path at `/` gives back exactly the request's fields iff none of them contains a `/` |
| Paths.CutAtSlash | src/controllers/forex.controller.js:40 | cutting at the first `/`: there is no cut iff the string has no `/`; otherwise the string is the part before, a `/`, and the rest, and the part before contains no `/` |
| Paths.ReadPair | src/controllers/forex.controller.js:40 | a path read as three `/`-free segments joins back to the same path |
| Paths.ReadPairOfPath | src/controllers/forex.controller.js:40 | joining three fields and reading them back is the identity iff no field contains a `/` |
| ErrorResponder.Respond | index.js:23-32 | total; each field is decided on its own: the status is `err.status` when present and non-zero, else 500; the message is `err.message` when present and non-empty, else "Something went wrong!"; the body reports `success: false` and repeats the HTTP status; status and message are never 0 or empty |
| ErrorResponder.RespondToCreatedError | index.js:24-25 | a created error keeps its status iff the status is non-zero, and keeps its message iff the message is non-empty; with both truthy, the response is exactly that status and message |
| ErrorResponder.RespondIsIdempotent | index.js:27-31 | answering an error built from a response's own body yields the same response |
| ErrorResponder.ReportedFailureAnswered | index.js:24-30 | each of the controller's five errors, if it reaches the responder, is answered with its own status (400 or 500) and message, never the defaults |
| ErrorResponder.HandlerErrorsAnswered | index.js:23-32 | whichever error of a run of either handler reaches the responder is answered with its own status and message |
| ForexExamples.EndpointWithoutKey | src/controllers/forex.controller.js:8 | with no API key configured, the pair endpoint is `https://v6.exchangerate-api.com/v6/undefined/pair` |
| ForexExamples.FetchScenarios | tests/forexController.test.js:23-42 | the rates handler's exact traces: the request then the body, or the request then the 500 error |
| ForexExamples.ConvertSucceeds | tests/forexController.test.js:46-57 | USD to EUR, 100: exactly the request to `.../USD/EUR/100` then the body |
| ForexExamples.ConvertFails | tests/forexController.test.js:104-114 | the same request with a failing upstream: exactly the request then the conversion error |
| ForexExamples.IncorrectCodeStillConverts | tests/forexController.test.js:68-75 | a refused target code: `next` with the code error, then the request to `.../USD/abc/100`, then `res.json` with the body |
| ForexExamples.NonNumericAmountReported | tests/forexController.test.js:77-84 | amount "abc" refused by `isFloat`: the amount error (followed by the conversion error if the upstream fails) and one request to `.../USD/EUR/abc` |
| ForexExamples.NegativeAmountReported | tests/forexController.test.js:86-93 | amount "-5": the amount error, and the request to `.../USD/EUR/-5` is still made |
| ForexExamples.ThreeDecimalsAccepted | tests/forexController.test.js:95-102 | an amount with three decimals that `isFloat` accepts converts with no error at all, unlike what the test expects |
| ForexExamples.MissingTarget | tests/forexController.test.js:59-66 | no `to`: the missing-parameters error comes first; if the validator throws on `undefined` the run then rejects; if it refuses, the code error follows and the request goes to `.../USD/undefined/100` |

## Left out

- The network: `axios.get` is reduced to how it settles, `Ok(data)` or `Fail`. Transport errors and non-2xx statuses are one case, because the handlers do not tell them apart.
- Asynchrony: each handler is sequential apart from its single awaited call, so a run is one trace. Interleaving with other requests is not modelled.
- Express wiring and routing (`index.js:1-21`, `src/routes/forex.routes.js`), CORS, `express.json`, `dotenv` and `app.listen`: plumbing with no decisions in it.
- The configuration: `API_ACCESS_KEY` is read when the module loads, which is before `dotenv.config()` runs. The key is therefore a parameter that may be `undefined`, which renders as "undefined" in the URL.
- `welcomeRoute`: a constant reply.
- The internals of the currency-code validator, `validator.isFloat` and JavaScript's string-to-number conversion: foreign code, left as uninterpreted functions.
- `src/utils/error.js` is not part of this model. `createError(s, m)` is taken to yield an error whose `status` is `s` and whose `message` is `m`.
- Query fields that Express parses as arrays or objects (`?from=a&from=b`): a field is either absent or a string.
- What Express does once a response has been sent. Only the first `next(err)` of a run can be answered by the error responder, so the `ErrorResponder` lemmas speak of an error that reaches it. It applies when `next(err)` has answered the client and `res.json` or a second `next` follows in the same run. The traces record every call the handler makes, not the HTTP exchange that results.
- `res.json` or `res.status` throwing: both are taken to succeed. This includes a status outside the HTTP range, and `res.json` after `next(err)` has already sent the error response ("headers already sent"). In that case the `catch` would also report the conversion failure.
- A `NaN` status on an error: errors carry integer statuses.
- The "at most two decimal places" rule for amounts. The code does not enforce it; `ForexExamples.ThreeDecimalsAccepted` shows an accepted three-decimal amount. The test at tests/forexController.test.js:95-102 expects a rejection.
- The URL expected at tests/forexController.test.js:64 for a request without `to` (`/USD/EUR/100`). The code builds `/USD/undefined/100`, which `ForexExamples.MissingTarget` states instead.
- An early return after a failed check: the code has none, so the model has none.
- URL parsing by the upstream: `Paths` splits the path string at `/` only. A field containing `?`, `#` or a percent-encoded `/` would be read differently by a real URL parser. `ForexController.ConversionPathReadBack` does not cover that.
