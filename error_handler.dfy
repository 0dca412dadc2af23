/**
 * utils/error_handler.go: the mapping from error values and success actions
 * to HTTP status codes. Writing the JSON response is I/O and is not modelled.
 */
module ErrorHandler {
  import opened Errors

  const BadRequest400: set<Error> := {
    InvalidJSON, MissingField, InvalidEmail, WeakPassword, InvalidField, InvalidCategory,
    InvalidParams, InvalidCredentials, InvalidToken, Errors.BadRequest, ValidationFailed }
  const Unauthorized401: set<Error> := {
    Errors.Unauthorized, MissingAuthHeader, InvalidAuthHeader, InvalidJWT, ExpiredJWT }
  const Forbidden403: set<Error> := { Errors.Forbidden, RoleNotAllowed, AccessDenied }
  const NotFound404: set<Error> := { UserNotFound, CategoryNotFound, ResourceNotFound }
  const Conflict409: set<Error> := { UserExists, CategoryExists, AlreadyProcessed, DuplicateRequest }
  const Unavailable503: set<Error> := { ServiceUnavailable, Timeout, DependencyFailure }
  const Internal500: set<Error> := { DatabaseFailure, CacheFailure, InternalFailure, Unknown }

  /**
   * HttpStatusFromError: a Go `switch err`, so the error is compared by
   * identity with each case in order and the first case that lists it wins.
   * ValidationFailed is listed in the 400 case and again in the 422 case, so
   * the 422 case is never taken. Anything not listed gets 500.
   */
  function HttpStatusFromError(err: Error): (status: int)
    ensures status in {400, 401, 403, 404, 409, 429, 500, 503}
    ensures status != 422
    // a wrapped error or a plain message is never identical to a listed sentinel
    ensures !err.IsSentinel() ==> status == 500
    // every sentinel gets the status class errors/error.go declares it under,
    // except InvalidPassword, which no case lists
    ensures err.IsSentinel() && err != InvalidPassword ==> status == DocumentedStatus(err)
    ensures err == InvalidPassword ==> status == 500
  {
    if err in BadRequest400 then 400
    else if err in Unauthorized401 then 401
    else if err in Forbidden403 then 403
    else if err in NotFound404 then 404
    else if err in Conflict409 then 409
    else if err == ValidationFailed then 422
    else if err == RateLimitExceeded then 429
    else if err in {MissingCredentials, InvalidPasswordAttempt} then 400
    else if err in {TooManyLoginAttempts, TooManyResetAttempts} then 429
    else if err in Unavailable503 then 503
    else if err in Internal500 then 500
    else 500
  }

  /**
   * HttpStatusFromSuccess: the action names that mean "created", "accepted"
   * and "deleted" get 201, 202 and 204; every other action gets 200.
   */
  function HttpStatusFromSuccess(action: string): (status: int)
    ensures status in {200, 201, 202, 204}
    ensures status == 201 <==> action in {"created", "register", "signup", "add"}
    ensures status == 202 <==> action in {"accepted", "queued", "processing"}
    ensures status == 204 <==> action in {"deleted", "removed"}
  {
    if action in {"created", "register", "signup", "add"} then 201
    else if action in {"accepted", "queued", "processing"} then 202
    else if action in {"deleted", "removed"} then 204
    else 200
  }

  /**
   * The services return sentinels wrapped with %w (for instance
   * GetUsersWithFiltersCursor's "from date cannot be after to date"), and the
   * identity switch sends every such error to 500 although its sentinel is
   * declared as a 400.
   */
  lemma WrappedSentinelIs500()
    ensures var err := Wrapped(InvalidCategory, "from date cannot be after to date");
            err.Is(InvalidCategory) && DocumentedStatus(InvalidCategory) == 400 &&
            HttpStatusFromError(err) == 500
  {
  }

  /** In a %w chain only the innermost error can be a sentinel, so errors.Is asks about the root. */
  lemma {:induction false} IsMeansRoot(err: Error, target: Error)
    requires target.IsSentinel()
    ensures err.Is(target) <==> err.Root() == target
  {
    if err.Wrapped? {
      IsMeansRoot(err.inner, target);
    }
  }

  /**
   * The mapping the callers evidently expect: classify an error by the
   * sentinel it wraps (errors.Is), then apply the same first-match table.
   */
  function HttpStatusFromErrorChain(err: Error): (status: int)
    ensures status in {400, 401, 403, 404, 409, 429, 500, 503}
  {
    HttpStatusFromError(err.Root())
  }

  /** Under the corrected mapping an error gets the status of any sentinel it wraps. */
  lemma ChainClassifiesByWrappedSentinel(err: Error, s: Error)
    requires s.IsSentinel() && s != InvalidPassword && err.Is(s)
    ensures HttpStatusFromErrorChain(err) == DocumentedStatus(s)
  {
    IsMeansRoot(err, s);
  }

  /** On errors that wrap nothing the corrected mapping is the original one. */
  lemma ChainAgreesOnSentinels(err: Error)
    requires !err.Wrapped?
    ensures HttpStatusFromErrorChain(err) == HttpStatusFromError(err)
  {
  }

  /** A wrapped client error keeps its client status under the corrected mapping. */
  lemma WrappedSentinelKeepsStatus(e: Error, note: string)
    requires e.IsSentinel() && e != InvalidPassword
    ensures HttpStatusFromErrorChain(Wrapped(e, note)) == DocumentedStatus(e)
  {
    ChainClassifiesByWrappedSentinel(Wrapped(e, note), e);
  }
}
