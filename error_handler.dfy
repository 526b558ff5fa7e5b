/**
 * The error-handling middleware (backend/src/middleware/errorHandler.ts) and the
 * outcome every controller produces. A controller either answers with a success
 * status, message and data, or ends with a thrown error; both the direct
 * `errorHandler(...)` calls and `next(error)` in the controllers end in
 * HandleError, so an outcome carries the error and HandleError renders it.
 */
module ErrorHandler {
  import opened Wrappers
  import opened AppErrors

  /** The JSON body `{ success, message, error: { code, details } }`. */
  datatype ErrorBody = ErrorBody(success: bool, message: string, code: string, details: Option<string>)

  datatype ErrorResponse = ErrorResponse(status: int, body: ErrorBody)

  /** The outcome of one request handler. */
  datatype Outcome<+T> =
    | Ok(status: int, message: string, data: T)
    | Err(thrown: Thrown)

  const InternalMessage: string := "Internal server error"
  const InternalCode: string := "INTERNAL_SERVER_ERROR"

  /** An AppError is sent with its own status, message, code and details; anything
      else becomes a generic 500 that reveals nothing of the original error. */
  function HandleError(err: Thrown): (r: ErrorResponse)
    ensures !r.body.success
    ensures err.App? ==> r.status == err.error.statusCode
    ensures err.App? ==> r.body.message == err.error.message && r.body.code == err.error.code
                         && r.body.details == err.error.details
    ensures err.Other? ==> r.status == 500 && r.body.message == InternalMessage
                           && r.body.code == InternalCode && r.body.details == None
  {
    match err
    case App(e) => ErrorResponse(e.statusCode, ErrorBody(false, e.message, e.code, e.details))
    case Other(_, _) => ErrorResponse(500, ErrorBody(false, InternalMessage, InternalCode, None))
  }

  /** Reads an AppError back out of a rendered response. */
  function ReadBack(r: ErrorResponse): AppError {
    AppError(r.body.message, r.status, r.body.code, r.body.details)
  }

  /** Rendering an AppError loses nothing: it can be read back exactly. */
  lemma AppErrorRendersLosslessly(e: AppError)
    ensures ReadBack(HandleError(App(e))) == e
  {
  }

  /** Two non-AppErrors render identically, whatever their names and messages. */
  lemma OtherErrorsIndistinguishable(a: Thrown, b: Thrown)
    requires a.Other? && b.Other?
    ensures HandleError(a) == HandleError(b)
    ensures HandleError(a).status == 500
  {
  }

  /** The HTTP status a handler's outcome is sent with: its own status on success, an
      AppError's own status code, and 500 for anything else thrown. */
  function StatusOf<T>(o: Outcome<T>): (s: int)
    ensures o.Ok? ==> s == o.status
    ensures o.Err? && o.thrown.App? ==> s == o.thrown.error.statusCode
    ensures o.Err? && o.thrown.Other? ==> s == 500
  {
    match o
    case Ok(status, _, _) => status
    case Err(e) => HandleError(e).status
  }
}
