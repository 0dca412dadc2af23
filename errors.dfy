/**
 * The error values of errors/error.go. Go compares these sentinels by
 * identity, so each one is a constructor of its own. `Wrapped` is what
 * fmt.Errorf("%w: ...") builds around a sentinel, and `Message` is an error
 * built from text alone (errors.New or fmt.Errorf without %w). Neither is
 * identical to any sentinel, even when it carries the same text.
 */
module Errors {

  datatype Error =
    // documented as 400 - Bad Request
    | InvalidJSON | MissingField | InvalidEmail | InvalidPassword | WeakPassword
    | InvalidField | InvalidCategory | InvalidParams | InvalidCredentials
    | InvalidToken | BadRequest | ValidationFailed
    // documented as 401 - Unauthorized
    | Unauthorized | MissingAuthHeader | InvalidAuthHeader | InvalidJWT | ExpiredJWT
    // documented as 403 - Forbidden
    | Forbidden | RoleNotAllowed | AccessDenied
    // documented as 404 - Not Found
    | UserNotFound | CategoryNotFound | ResourceNotFound
    // documented as 409 - Conflict
    | UserExists | CategoryExists | AlreadyProcessed | DuplicateRequest
    // documented as 400 - Bad Request
    | MissingCredentials | InvalidPasswordAttempt
    // documented as 429 - Too Many Requests
    | TooManyLoginAttempts | TooManyResetAttempts | RateLimitExceeded
    // documented as 500 - Internal Errors
    | DatabaseFailure | CacheFailure | InternalFailure | Unknown
    // documented as 503 - Service Unavailable
    | ServiceUnavailable | Timeout | DependencyFailure
    // fmt.Errorf("%w: <note>", inner)
    | Wrapped(inner: Error, note: string)
    // an error that wraps nothing
    | Message(text: string)
  {
    predicate IsSentinel() {
      !Wrapped? && !Message?
    }

    /** errors.Is(this, target) for a sentinel target: walk the %w chain. */
    predicate Is(target: Error)
      requires target.IsSentinel()
    {
      if Wrapped? then this == target || inner.Is(target) else this == target
    }

    /** The innermost error of the %w chain. */
    function Root(): (r: Error)
      ensures !r.Wrapped?
    {
      if Wrapped? then inner.Root() else this
    }
  }

  /** The status class under which errors/error.go declares each sentinel. */
  function DocumentedStatus(e: Error): (status: int)
    requires e.IsSentinel()
  {
    match e
    case InvalidJSON | MissingField | InvalidEmail | InvalidPassword | WeakPassword
      | InvalidField | InvalidCategory | InvalidParams | InvalidCredentials
      | InvalidToken | BadRequest | ValidationFailed
      | MissingCredentials | InvalidPasswordAttempt => 400
    case Unauthorized | MissingAuthHeader | InvalidAuthHeader | InvalidJWT | ExpiredJWT => 401
    case Forbidden | RoleNotAllowed | AccessDenied => 403
    case UserNotFound | CategoryNotFound | ResourceNotFound => 404
    case UserExists | CategoryExists | AlreadyProcessed | DuplicateRequest => 409
    case TooManyLoginAttempts | TooManyResetAttempts | RateLimitExceeded => 429
    case DatabaseFailure | CacheFailure | InternalFailure | Unknown => 500
    case ServiceUnavailable | Timeout | DependencyFailure => 503
  }
}
