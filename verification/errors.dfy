/** The handlers' error type (`AppError`) and its conversion into an HTTP
    response: a status code and the JSON body `{"error": message}`. */
module Errors {

  datatype AppError =
    | NotFound(msg: string)
    | Unauthorized(msg: string)
    | BadRequest(msg: string)
    | Forbidden(msg: string)
    | Internal(msg: string)
    /** A database failure; `detail` is the driver's description. */
    | Sqlx(detail: string)

  /** An HTTP response: status code and the members of the JSON body object. */
  datatype Response = Response(status: int, body: seq<(string, string)>)

  /** The message every database failure is reported with. */
  const InternalDatabaseError: string := "Internal database error"

  /** `AppError::into_response`. */
  function IntoResponse(e: AppError): (r: Response)
    ensures |r.body| == 1 && r.body[0].0 == "error"
    ensures e.NotFound? <==> r.status == 404
    ensures e.Unauthorized? <==> r.status == 401
    ensures e.BadRequest? <==> r.status == 400
    ensures e.Forbidden? <==> r.status == 403
    ensures e.Internal? || e.Sqlx? <==> r.status == 500
    ensures !e.Sqlx? ==> r.body[0].1 == e.msg
    ensures e.Sqlx? ==> r.body[0].1 == InternalDatabaseError
  {
    var (status, message) :=
      match e
      case NotFound(m) => (404, m)
      case Unauthorized(m) => (401, m)
      case BadRequest(m) => (400, m)
      case Forbidden(m) => (403, m)
      case Internal(m) => (500, m)
      case Sqlx(_) => (500, InternalDatabaseError);
    Response(status, [("error", message)])
  }

  /** Every error becomes a client (4xx) or server (5xx) error response. */
  lemma ResponseIsErrorStatus(e: AppError)
    ensures 400 <= IntoResponse(e).status < 600
  {
  }

  /** A database failure never reveals its detail: all of them produce the
      same response. */
  lemma SqlxDetailHidden(d1: string, d2: string)
    ensures IntoResponse(Sqlx(d1)) == IntoResponse(Sqlx(d2))
  {
  }

  /** Apart from database failures, the response identifies the error
      exactly: equal responses come from equal errors. */
  lemma ResponseDeterminesError(a: AppError, b: AppError)
    requires !a.Sqlx? && !b.Sqlx?
    ensures IntoResponse(a) == IntoResponse(b) <==> a == b
  {
  }
}
