/** The application's terminal error handler: an error passed to `next`
    while no response has been sent yet ends here and becomes the JSON error
    response the client receives. */
module ErrorResponder {
  import opened Js
  import opened ErrorValues
  import opened Effects
  import opened ForexController

  const DefaultStatus: int := 500
  const DefaultMessage: string := "Something went wrong!"

  /** The JSON body of an error response. */
  datatype Body = Body(success: bool, status: int, message: string)

  /** An HTTP response: the status code and the JSON body. */
  datatype Response = Response(code: int, body: Body)

  /** `err.status` is truthy: present and not 0. */
  predicate StatusTruthy(e: ErrorValue) {
    e.status.Some? && e.status.value != 0
  }

  /** `err.message` is truthy: present and not empty. */
  predicate MessageTruthy(e: ErrorValue) {
    e.message.Some? && |e.message.value| > 0
  }

  /** The handler: `err.status || 500` and `err.message || "Something went
      wrong!"`, sent as the response status and echoed in a body that
      reports failure. */
  function Respond(err: ErrorValue): (r: Response)
    ensures !r.body.success && r.body.status == r.code
    ensures r.code != 0 && r.body.message != ""
    ensures r.code == DefaultStatus || err.status == Some(r.code)
    ensures r.body.message == DefaultMessage || err.message == Some(r.body.message)
    ensures StatusTruthy(err) ==> r.code == err.status.value
    ensures MessageTruthy(err) ==> r.body.message == err.message.value
    ensures !StatusTruthy(err) ==> r.code == DefaultStatus
    ensures !MessageTruthy(err) ==> r.body.message == DefaultMessage
  {
    var status := if StatusTruthy(err) then err.status.value else DefaultStatus;
    var message := if MessageTruthy(err) then err.message.value else DefaultMessage;
    Response(status, Body(false, status, message))
  }

  /** An error created with a non-zero status and a non-empty message is
      answered with exactly that status and message; a zero status or an
      empty message is replaced by the default. */
  lemma RespondToCreatedError(status: int, message: string)
    ensures Respond(CreateError(status, message)).code == status <==> status != 0
    ensures Respond(CreateError(status, message)).body.message == message <==> message != ""
    ensures status != 0 && message != "" ==>
      Respond(CreateError(status, message)) == Response(status, Body(false, status, message))
  {
  }

  /** Reading a response body back as an error and answering it again gives
      the same response: the handler is a projection. */
  lemma RespondIsIdempotent(err: ErrorValue)
    ensures var r := Respond(err);
      Respond(CreateError(r.body.status, r.body.message)) == r
  {
  }

  /** Every error the controller reports, if it reaches this handler, is
      answered with the status and message it was created with, never with
      the defaults. */
  lemma ReportedFailureAnswered(f: Failure)
    ensures var e := ErrorOf(f);
      && e.status.Some? && e.message.Some?
      && Respond(e) == Response(e.status.value, Body(false, e.status.value, e.message.value))
      && (Respond(e).code == 400 || Respond(e).code == 500)
  {
  }

  /** Answering the error shows its own status and message. */
  predicate AnsweredAsCreated(e: ErrorValue) {
    && e.status.Some? && e.message.Some?
    && Respond(e) == Response(e.status.value, Body(false, e.status.value, e.message.value))
  }

  /** Every error reported for a sequence of failures is answered as created. */
  lemma ReportsAnswered(fs: seq<Failure>)
    ensures forall e :: e in Reports(fs) ==> AnsweredAsCreated(e)
  {
  }

  /** Whichever error of a run of either handler reaches this handler is
      answered with its own status and message. Only the first `next` of a
      run can be answered: one request gets one response. */
  lemma HandlerErrorsAnswered<D>(lib: Library, apiKey: Param, q: Query, upstream: Outcome<D>)
    ensures forall e :: e in Errors(ConvertCurrency(lib, apiKey, q, upstream)) ==> AnsweredAsCreated(e)
    ensures forall e :: e in Errors(FetchExchangeRates(upstream)) ==> AnsweredAsCreated(e)
  {
    var fs := RunFailures(Validate(lib, q), upstream);
    assert Errors(ConvertCurrency(lib, apiKey, q, upstream)) == Reports(fs);
    ReportsAnswered(fs);
    ReportedFailureAnswered(RatesUnavailable);
  }
}
