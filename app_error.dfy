/**
 * The typed error every handler raises (backend/src/utils/AppError.ts), and the
 * wider family of things a handler can throw: an AppError, or any other error
 * (a library error, a missing-secret error), identified by its name.
 */
module AppErrors {
  import opened Wrappers

  /** An AppError record; its fields are set once by the constructor and never changed.
      The defaults are the constructor's own: 500, "INTERNAL_SERVER_ERROR", no details. */
  datatype AppError = AppError(
    message: string,
    statusCode: int := 500,
    code: string := "INTERNAL_SERVER_ERROR",
    details: Option<string> := None)

  /** What a handler may throw: `err instanceof AppError` or not. */
  datatype Thrown =
    | App(error: AppError)
    | Other(name: string, message: string)

  function BadRequest(message: string): Thrown { App(AppError(message, 400, "BAD_REQUEST")) }
  function Unauthorized(message: string): Thrown { App(AppError(message, 401, "UNAUTHORIZED")) }
  function Forbidden(message: string): Thrown { App(AppError(message, 403, "FORBIDDEN")) }
  function NotFound(message: string): Thrown { App(AppError(message, 404, "NOT_FOUND")) }
  function Conflict(message: string): Thrown { App(AppError(message, 409, "CONFLICT")) }

  /** Omitted constructor arguments take their defaults; the message is kept as given. */
  lemma OmittedArgumentsDefault(message: string)
    ensures AppError(message).message == message
    ensures AppError(message).statusCode == 500
    ensures AppError(message).code == "INTERNAL_SERVER_ERROR"
    ensures AppError(message).details == None
  {
  }

  /** Supplied arguments are stored unchanged. */
  lemma SuppliedArgumentsKept(message: string, statusCode: int, code: string, details: Option<string>)
    ensures var e := AppError(message, statusCode, code, details);
      e.message == message && e.statusCode == statusCode && e.code == code && e.details == details
  {
  }
}
