/** `mapErrorTypeToHttpCode` (src/utils/mapErrorTypeToHttpCode.ts). */
module HttpCodes {
  import opened Errors

  /**
   * The HTTP status a controller answers with for an error category. The
   * argument is the category's run-time string, since the `default` arm also
   * receives strings that are no category at all.
   */
  function MapErrorTypeToHttpCode(errorType: string): (code: int)
    ensures code in {400, 401, 403, 404, 409, 500}
    ensures code == 401 <==> errorType == ErrorTypeValue(Authorization)
    ensures code == 403 <==> errorType == ErrorTypeValue(Forbidden)
    ensures code == 400 <==> errorType == ErrorTypeValue(IncorrectInput)
    ensures code == 404 <==> errorType == ErrorTypeValue(NotFound)
    ensures code == 409 <==> errorType == ErrorTypeValue(Duplicate)
  {
    if errorType == "authorization" then 401
    else if errorType == "forbidden" then 403
    else if errorType == "incorrect-input" then 400
    else if errorType == "not-found" then 404
    else if errorType == "duplicate" then 409
    else if errorType == "unknow" then 500
    else 500
  }

  /** The status of a category. */
  function HttpCode(t: ErrorType): int {
    MapErrorTypeToHttpCode(ErrorTypeValue(t))
  }

  /**
   * Exactly the categories other than `unknow` are client errors, each with
   * its own status; `unknow` and every unrecognised string answer 500.
   */
  lemma {:induction false} HttpCodesDistinguishCategories(s: ErrorType, t: ErrorType, other: string)
    ensures HttpCode(t) < 500 <==> t != Unknow
    ensures s != t && s != Unknow && t != Unknow ==> HttpCode(s) != HttpCode(t)
    ensures HttpCode(Unknow) == 500
    ensures (forall c: ErrorType :: other != ErrorTypeValue(c)) ==> MapErrorTypeToHttpCode(other) == 500
  {
    assert HttpCode(Unknow) == 500;
  }

  /** The status each constructor's error is answered with. */
  lemma ConstructorStatuses(error: string, slug: Slug)
    ensures HttpCode(NewAuthorizationError(error, slug).errorType) == 401
    ensures HttpCode(NewForbiddenError(error, slug).errorType) == 403
    ensures HttpCode(NewIncorrectInputError(error, slug).errorType) == 400
    ensures HttpCode(NewNotFoundError(error, slug).errorType) == 404
    ensures HttpCode(NewDuplicateError(error, slug).errorType) == 409
    ensures HttpCode(NewUnknowError(error, slug).errorType) == 500
  {
  }
}
