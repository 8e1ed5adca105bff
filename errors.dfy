/** The application's error classes: each fixes a `name` and an HTTP `statusCode` and keeps its message. */
module Errors {
  import opened Wrappers

  /**
   * The five custom classes, plus `PlainError` for everything thrown without a status code: a bare
   * `Error`, a `TypeError`, or a rejection from the persistence layer (its `name` is kept).
   */
  datatype ErrorClass =
    | ValidationError
    | ConflictError
    | AuthenticationError
    | NotFoundError
    | ForbiddenError
    | PlainError(name: string)

  datatype AppError = AppError(cls: ErrorClass, message: string)

  type Outcome<T> = Result<T, AppError>

  /** The `name` property each class sets; `ForbidenError` is spelled as the class spells it. */
  function ClassName(c: ErrorClass): string {
    match c
    case ValidationError => "Validation Error"
    case ConflictError => "Conflict Error"
    case AuthenticationError => "Authentication Error"
    case NotFoundError => "NotFoundError"
    case ForbiddenError => "ForbidenError"
    case PlainError(name) => name
  }

  /** The `statusCode` property; a plain error has none. */
  function StatusCode(c: ErrorClass): (r: Option<int>)
    ensures r.None? <==> c.PlainError?
    ensures r.Some? ==> 400 <= r.value < 500
    ensures c == ValidationError <==> r == Some(400)
    ensures c == AuthenticationError <==> r == Some(401)
    ensures c == ForbiddenError <==> r == Some(403)
    ensures c == NotFoundError <==> r == Some(404)
    ensures c == ConflictError <==> r == Some(409)
  {
    match c
    case ValidationError => Some(400)
    case ConflictError => Some(409)
    case AuthenticationError => Some(401)
    case NotFoundError => Some(404)
    case ForbiddenError => Some(403)
    case PlainError(_) => None
  }

  /** No two custom classes share a status code, so the code identifies the class. */
  lemma StatusCodeIdentifiesClass(a: ErrorClass, b: ErrorClass)
    requires StatusCode(a).Some? && StatusCode(a) == StatusCode(b)
    ensures a == b
  {
  }

  function Validation(message: string): AppError { AppError(ValidationError, message) }
  function Conflict(message: string): AppError { AppError(ConflictError, message) }
  function Authentication(message: string): AppError { AppError(AuthenticationError, message) }
  function NotFound(message: string): AppError { AppError(NotFoundError, message) }
  function Plain(name: string, message: string): AppError { AppError(PlainError(name), message) }

  /** What the persistence layer throws when a query argument is NaN, an Invalid Date, or a negative offset. */
  function StorageRejected(): AppError {
    Plain("PrismaClientValidationError", "Invalid query argument")
  }
}
