/**
 The error taxonomy of the API. Each exception class of
 src/backend/utils/exceptions/api_exceptions.py is one `ErrorKind`, carrying its
 fixed status code, default detail and default code. A failed operation either
 raised one of these (`Raised`) or died on a Python runtime fault (a `TypeError`
 or `AttributeError`, a `DoesNotExist`), which the API does not translate and
 Django answers with a bare 500 (`Unhandled`).
 */
module Errors {

  import opened Wrappers

  datatype ErrorKind =
    | BadRequest
    | Unauthorized
    | Forbidden
    | NotFound
    | Unprocessable
    | InternalServerError

  /** The `status_code` class attribute of each exception. */
  function StatusCode(k: ErrorKind): int
  {
    match k
    case BadRequest => 400
    case Unauthorized => 401
    case Forbidden => 403
    case NotFound => 404
    case Unprocessable => 422
    case InternalServerError => 500
  }

  /** The exception kind that answers with `code`, if any: the inverse of `StatusCode`. */
  function KindOfStatus(code: int): (k: Option<ErrorKind>)
    ensures k.Some? ==> StatusCode(k.value) == code
  {
    if code == 400 then Some(BadRequest)
    else if code == 401 then Some(Unauthorized)
    else if code == 403 then Some(Forbidden)
    else if code == 404 then Some(NotFound)
    else if code == 422 then Some(Unprocessable)
    else if code == 500 then Some(InternalServerError)
    else None
  }

  /** Every kind is recovered from its status code, so no two kinds share a code. */
  lemma StatusCodeDetermines(k: ErrorKind)
    ensures KindOfStatus(StatusCode(k)) == Some(k)
  {
  }

  /** The six kinds have pairwise distinct status codes. */
  lemma StatusCodesDistinct(k1: ErrorKind, k2: ErrorKind)
    requires StatusCode(k1) == StatusCode(k2)
    ensures k1 == k2
  {
    StatusCodeDetermines(k1);
    StatusCodeDetermines(k2);
  }

  /** The `default_detail` class attribute: the message of an exception raised with no argument. */
  function DefaultDetail(k: ErrorKind): string
  {
    match k
    case BadRequest => "Bad request exception"
    case Unauthorized => "Unauthorized exception"
    case Forbidden => "Forbidden exception"
    case NotFound => "Not found exception"
    case Unprocessable => "Unprocessable entity exception"
    case InternalServerError => "Internal server error exception"
  }

  /** The `default_code` class attribute. */
  function DefaultCode(k: ErrorKind): string
  {
    match k
    case BadRequest => "bad_request_esception"
    case Unauthorized => "unauthorized_exception"
    case Forbidden => "forbidden_exception"
    case NotFound => "not_found_exception"
    case Unprocessable => "unprocessable_entity_exception"
    case InternalServerError => "internal_server_error_exception"
  }

  datatype Failure =
    | Raised(kind: ErrorKind, message: string)
    | Unhandled

  /** An exception instantiated with no argument carries its default detail. */
  function Default(k: ErrorKind): Failure
  {
    Raised(k, DefaultDetail(k))
  }

  /** The HTTP status a failure is answered with. */
  function ResponseStatus(f: Failure): (code: int)
    ensures f.Raised? ==> KindOfStatus(code) == Some(f.kind)
    ensures f.Unhandled? ==> code == 500
  {
    match f
    case Raised(k, _) => StatusCodeDetermines(k); StatusCode(k)
    case Unhandled => 500
  }

  datatype Result<+T> = Ok(value: T) | Err(failure: Failure)

  /** The state a request leaves behind (writes are committed one by one), and what it answered. */
  datatype Step<+S, +T> = Step(state: S, result: Result<T>)
}
