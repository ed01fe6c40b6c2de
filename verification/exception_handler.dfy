/**
 The API's exception handler
 (src/backend/utils/exceptions/handlers/exception_handler.py). Django REST
 framework's own handler turns an API exception into a response; this
 handler then replaces the response body by a single error trace naming the
 request method, the status code, a message drawn from the exception's
 detail and the requested URL. Anything else is left to Django, which
 answers 500.
 */
module ExceptionHandler {

  import opened Wrappers
  import opened Errors
  import opened Constants

  /** A value of the detail mapping: a framework error detail (a string) or anything else. */
  datatype DetailValue = ErrorDetailText(text: string) | OtherValue

  /**
   An exception's `detail`: a string; a mapping, of which only its "detail"
   entry and its string form matter here; or anything else (a list, say).
   */
  datatype Detail =
    | Text(s: string)
    | Mapping(detailEntry: Option<DetailValue>, shown: string)
    | OtherDetail

  /** What reaches the handler: an API exception of some kind, or any other exception. */
  datatype Exception = ApiError(kind: ErrorKind, detail: Detail) | OtherError

  /** The parts of the request the trace uses. */
  datatype Request = Request(httpMethod: string, host: Option<string>, fullPath: Option<string>)

  datatype ErrorTrace = ErrorTrace(eventType: string, statusCode: int, message: string, target: string)

  /** A response body value: the framework's own detail, or the error trace. */
  datatype BodyValue = DetailOf(detail: Detail) | Trace(trace: ErrorTrace)

  datatype Response = Response(status: int, data: map<string, BodyValue>)

  const FALLBACK_MESSAGE: string := "Something went wrong."

  /** The framework's handler: API exceptions get their status and a "detail" body; others get nothing. */
  function BaseHandler(exc: Exception): (r: Option<Response>)
    ensures r.Some? <==> exc.ApiError?
    ensures r.Some? ==> r.value.status == StatusCode(exc.kind)
  {
    match exc
    case ApiError(k, d) => Some(Response(StatusCode(k), map["detail" := DetailOf(d)]))
    case OtherError => None
  }

  /**
   `__message_builder`: a string detail is the message; a mapping gives its
   "detail" entry when that is an error detail and its string form
   otherwise; anything else gives the fallback message.
   */
  function MessageBuilder(detail: Detail): (m: string)
    ensures detail.Text? ==> m == detail.s
    ensures detail.Mapping? && detail.detailEntry.Some? && detail.detailEntry.value.ErrorDetailText? ==>
      m == detail.detailEntry.value.text
    ensures detail.Mapping? && !(detail.detailEntry.Some? && detail.detailEntry.value.ErrorDetailText?) ==>
      m == detail.shown
    ensures detail.OtherDetail? ==> m == FALLBACK_MESSAGE
  {
    match detail
    case Text(s) => s
    case Mapping(entry, shown) =>
      if entry.Some? && entry.value.ErrorDetailText? then entry.value.text else shown
    case OtherDetail => FALLBACK_MESSAGE
  }

  /** `__evaluate_string`: a missing string reads as the empty one. */
  function EvaluateString(s: Option<string>): (r: string)
    ensures s.None? ==> r == EMPTY_CHAR
    ensures s.Some? ==> r == s.value
  {
    match s
    case None => EMPTY_CHAR
    case Some(v) => v
  }

  /** The URL of the request: scheme, host and path, missing parts left empty. */
  function Target(req: Request): (t: string)
    ensures |t| == 7 + |EvaluateString(req.host)| + |EvaluateString(req.fullPath)|
    ensures t[..7] == "http://"
    ensures req.host.Some? ==> t[7..7 + |req.host.value|] == req.host.value
    ensures req.fullPath.Some? ==> t[|t| - |req.fullPath.value|..] == req.fullPath.value
  {
    "http://" + EvaluateString(req.host) + EvaluateString(req.fullPath)
  }

  /**
   `handler`: nothing stays nothing; otherwise the status is kept and the
   body becomes exactly one "error" entry holding the trace.
   */
  function Handler(exc: Exception, req: Request): (r: Option<Response>)
    ensures r.None? <==> BaseHandler(exc).None?
    ensures r.Some? ==> r.value.status == BaseHandler(exc).value.status
    ensures r.Some? ==> r.value.data.Keys == {"error"}
    ensures r.Some? ==>
      r.value.data["error"] == Trace(ErrorTrace(req.httpMethod, StatusCode(exc.kind), MessageBuilder(exc.detail), Target(req)))
  {
    match BaseHandler(exc)
    case None => None
    case Some(response) =>
      var trace := ErrorTrace(req.httpMethod, StatusCode(exc.kind), MessageBuilder(exc.detail), Target(req));
      Some(response.(data := map["error" := Trace(trace)]))
  }

  /** How a failure of the model leaves the application: an API exception with its message, or a runtime fault. */
  function ExceptionOf(f: Failure): Exception
  {
    match f
    case Raised(k, m) => ApiError(k, Text(m))
    case Unhandled => OtherError
  }

  /**
   End to end: a refusal of kind `k` with message `m` is answered with `k`'s
   status and a trace carrying `m` and that same status, from which the kind
   can be read back; a runtime fault is left to Django's 500.
   */
  lemma FailureResponse(f: Failure, req: Request)
    ensures f.Raised? ==>
      && Handler(ExceptionOf(f), req).Some?
      && Handler(ExceptionOf(f), req).value.status == ResponseStatus(f)
      && Handler(ExceptionOf(f), req).value.data["error"].trace.message == f.message
      && Handler(ExceptionOf(f), req).value.data["error"].trace.statusCode == ResponseStatus(f)
      && KindOfStatus(Handler(ExceptionOf(f), req).value.status) == Some(f.kind)
    ensures f.Unhandled? ==> Handler(ExceptionOf(f), req).None? && ResponseStatus(f) == 500
  {
  }
}
