/** The global error handler (middlewares/errorMiddlewrare.js): it defaults the
    status code and status of the error it receives in place, then renders it. */
module ErrorMiddleware {
  import opened Common

  /** The error object passed to next(err). */
  class ErrorObject {
    var statusCode: Option<int>
    var status: Option<string>
    var message: string
    var stack: string

    constructor (statusCode: Option<int>, status: Option<string>, message: string, stack: string)
      ensures this.statusCode == statusCode && this.status == status
      ensures this.message == message && this.stack == stack
    {
      this.statusCode := statusCode;
      this.status := status;
      this.message := message;
      this.stack := stack;
    }
  }

  /** The error as the two senders read it, after defaulting. */
  datatype Rendered = Rendered(statusCode: int, status: string, message: string, stack: string)

  /** The JSON body of an error response. */
  datatype Payload =
    | ProdPayload(status: string, message: string)
    | DevPayload(status: string, error: Rendered, message: string, stack: string)

  datatype Response = Response(code: int, payload: Payload)

  /** err.statusCode || 500: a missing (or zero) status code becomes 500. */
  function DefaultStatusCode(code: Option<int>): (r: int)
    ensures code.Some? && code.value != 0 ==> r == code.value
    ensures code.None? || code.value == 0 ==> r == 500
    ensures r != 0
  {
    if code.Some? && code.value != 0 then code.value else 500
  }

  /** err.status || "error": a missing (or empty) status becomes "error". */
  function DefaultStatus(status: Option<string>): (r: string)
    ensures status.Some? && status.value != "" ==> r == status.value
    ensures status.None? || status.value == "" ==> r == "error"
    ensures r != ""
  {
    if status.Some? && status.value != "" then status.value else "error"
  }

  /** Defaulting twice is defaulting once. */
  lemma DefaultsAreIdempotent(code: Option<int>, status: Option<string>)
    ensures DefaultStatusCode(Some(DefaultStatusCode(code))) == DefaultStatusCode(code)
    ensures DefaultStatus(Some(DefaultStatus(status))) == DefaultStatus(status)
  {
  }

  /** sendErrorForDev: status, the error itself, message and stack. */
  function SendErrorForDev(e: Rendered): (r: Response)
    ensures r.code == e.statusCode
    ensures r.payload.DevPayload? && r.payload.error == e && r.payload.stack == e.stack
    ensures r.payload.status == e.status && r.payload.message == e.message
  {
    Response(e.statusCode, DevPayload(e.status, e, e.message, e.stack))
  }

  /** sendErrorForProd: exactly status and message. */
  function SendErrorForProd(e: Rendered): (r: Response)
    ensures r.code == e.statusCode
    ensures r.payload == ProdPayload(e.status, e.message)
  {
    Response(e.statusCode, ProdPayload(e.status, e.message))
  }

  /** The responses globalError sends, in order. In development both senders run,
      since nothing returns after the first; otherwise only the production one. Every
      response carries the same status code, and the last is the production shape. */
  function Responses(e: Rendered, env: string): (sent: seq<Response>)
    ensures |sent| == if env == "development" then 2 else 1
    ensures env == "development" ==> sent[0] == SendErrorForDev(e)
    ensures sent[|sent| - 1] == SendErrorForProd(e)
    ensures forall i :: 0 <= i < |sent| ==> sent[i].code == e.statusCode
  {
    (if env == "development" then [SendErrorForDev(e)] else []) + [SendErrorForProd(e)]
  }

  /** Outside development no response carries the error object or its stack. */
  lemma ProductionHidesDetail(e: Rendered, env: string)
    requires env != "development"
    ensures forall i :: 0 <= i < |Responses(e, env)| ==> Responses(e, env)[i].payload.ProdPayload?
  {
  }

  /** globalError: defaults err.statusCode and err.status in place, then sends. */
  method GlobalError(err: ErrorObject, env: string) returns (sent: seq<Response>)
    modifies err
    ensures err.statusCode == Some(DefaultStatusCode(old(err.statusCode)))
    ensures err.status == Some(DefaultStatus(old(err.status)))
    ensures err.message == old(err.message) && err.stack == old(err.stack)
    ensures sent == Responses(Rendered(err.statusCode.value, err.status.value, err.message, err.stack), env)
  {
    err.statusCode := Some(if err.statusCode.Some? && err.statusCode.value != 0 then err.statusCode.value else 500);
    err.status := Some(if err.status.Some? && err.status.value != "" then err.status.value else "error");
    var e := Rendered(err.statusCode.value, err.status.value, err.message, err.stack);
    sent := [];
    if env == "development" {
      sent := sent + [SendErrorForDev(e)];
    }
    sent := sent + [SendErrorForProd(e)];
  }

  /** The rendering of a handler's failure: an application error keeps its code and
      status class, any other exception is a 500 with status "error". */
  function RenderFailure<T>(o: Outcome<T>, stack: string): (e: Rendered)
    requires !o.Ok?
    ensures o.Reject? && o.error.statusCode != 0 ==>
      e == Rendered(o.error.statusCode, StatusClass(o.error.statusCode), o.error.message, stack)
    ensures o.Raise? ==> e == Rendered(500, "error", o.message, stack)
  {
    match o
    case Reject(ApiError(message, code)) =>
      Rendered(DefaultStatusCode(Some(code)), DefaultStatus(Some(StatusClass(code))), message, stack)
    case Raise(message) =>
      Rendered(DefaultStatusCode(None), DefaultStatus(None), message, stack)
  }

  /** In production a client sees, for any failure, one response with its status code,
      status class and message, and nothing else. */
  lemma ClientSeesStatusAndMessage<T>(o: Outcome<T>, stack: string, env: string)
    requires !o.Ok? && env != "development"
    requires o.Reject? ==> o.error.statusCode != 0
    ensures var code := if o.Reject? then o.error.statusCode else 500;
      var message := if o.Reject? then o.error.message else o.message;
      Responses(RenderFailure(o, stack), env)
        == [Response(code, ProdPayload(StatusClass(code), message))]
  {
  }
}
