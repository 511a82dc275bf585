/**
 * The error taxonomy of the services (src/services/errors): the six error
 * categories, the slugs the services attach, the error record and its six
 * constructors, and the reply shape every service operation returns.
 */
module Errors {
  import opened Options

  /** The categories of `ErrorType`. */
  datatype ErrorType = Unknow | Authorization | Forbidden | IncorrectInput | NotFound | Duplicate

  /** The string each category carries at run time. */
  function ErrorTypeValue(t: ErrorType): string {
    match t
    case Unknow => "unknow"
    case Authorization => "authorization"
    case Forbidden => "forbidden"
    case IncorrectInput => "incorrect-input"
    case NotFound => "not-found"
    case Duplicate => "duplicate"
  }

  /**
   * Every slug the services name. The first eight are members of the `Slug`
   * enumeration; the last five are named by the services but are not
   * members, so at run time they evaluate to `undefined`.
   */
  datatype Slug =
    | ErrIncorrectInput | ErrInvalidEmail | ErrInvalidPassword | ErrInvalidCredentials
    | ErrExpiredToken | ErrInvalidRefleshToken | ErrUserAlreadyExist | ErrUnknow
    | ErrRecipeNotFound | ErrOrderAlreadyInStatusCreated | ErrIngredientNotFound
    | ErrDataNotFound | ErrMachineConfigurationNotFound

  /** The run-time value of a slug; `None` stands for `undefined`. */
  function SlugValue(s: Slug): Option<string> {
    match s
    case ErrIncorrectInput => Some("INVALID_INPUT")
    case ErrInvalidEmail => Some("INVALID_EMAIL")
    case ErrInvalidPassword => Some("INVALID_PASSWORD")
    case ErrInvalidCredentials => Some("INVALID_CREDENTIALS")
    case ErrExpiredToken => Some("EXPIRED_TOKEN")
    case ErrInvalidRefleshToken => Some("INVALID_REFRESH_TOKEN")
    case ErrUserAlreadyExist => Some("USER_ALREADY_EXIST")
    case ErrUnknow => Some("UNKNOW")
    case _ => None
  }

  /** Whether the slug is a member of the enumeration. */
  predicate IsDeclaredSlug(s: Slug) {
    s in {ErrIncorrectInput, ErrInvalidEmail, ErrInvalidPassword, ErrInvalidCredentials,
          ErrExpiredToken, ErrInvalidRefleshToken, ErrUserAlreadyExist, ErrUnknow}
  }

  /** The slugs of the enumeration have pairwise distinct values; the others have none. */
  lemma SlugValues(s: Slug, t: Slug)
    ensures SlugValue(s).Some? <==> IsDeclaredSlug(s)
    ensures IsDeclaredSlug(s) && IsDeclaredSlug(t) && SlugValue(s) == SlugValue(t) ==> s == t
  {
  }

  datatype Error = Error(error: string, slug: Slug, errorType: ErrorType)

  function NewAuthorizationError(error: string, slug: Slug): (e: Error)
    ensures e.error == error && e.slug == slug
    ensures e.errorType == Authorization
  {
    Error(error, slug, Authorization)
  }

  function NewForbiddenError(error: string, slug: Slug): (e: Error)
    ensures e.error == error && e.slug == slug
    ensures e.errorType == Forbidden
  {
    Error(error, slug, Forbidden)
  }

  function NewIncorrectInputError(error: string, slug: Slug): (e: Error)
    ensures e.error == error && e.slug == slug
    ensures e.errorType == IncorrectInput
  {
    Error(error, slug, IncorrectInput)
  }

  function NewNotFoundError(error: string, slug: Slug): (e: Error)
    ensures e.error == error && e.slug == slug
    ensures e.errorType == NotFound
  {
    Error(error, slug, NotFound)
  }

  function NewDuplicateError(error: string, slug: Slug): (e: Error)
    ensures e.error == error && e.slug == slug
    ensures e.errorType == Duplicate
  {
    Error(error, slug, Duplicate)
  }

  function NewUnknowError(error: string, slug: Slug): (e: Error)
    ensures e.error == error && e.slug == slug
    ensures e.errorType == Unknow
  {
    Error(error, slug, Unknow)
  }

  /**
   * The six constructors cover the six categories, each exactly once, and
   * the run-time strings of the categories are pairwise distinct.
   */
  lemma ConstructorsPartitionCategories(error: string, slug: Slug)
    ensures var kinds := [NewAuthorizationError(error, slug).errorType, NewForbiddenError(error, slug).errorType,
                          NewIncorrectInputError(error, slug).errorType, NewNotFoundError(error, slug).errorType,
                          NewDuplicateError(error, slug).errorType, NewUnknowError(error, slug).errorType];
            (forall i, j :: 0 <= i < j < 6 ==> ErrorTypeValue(kinds[i]) != ErrorTypeValue(kinds[j]))
            && (forall t: ErrorType :: t in kinds)
  {
    forall t: ErrorType
      ensures t in [Authorization, Forbidden, IncorrectInput, NotFound, Duplicate, Unknow]
    {
      match t
      case Unknow =>
      case Authorization =>
      case Forbidden =>
      case IncorrectInput =>
      case NotFound =>
      case Duplicate =>
    }
  }

  /**
   * What every service operation resolves to: a value, a returned error
   * (the `error` field of the reply), or a rejected promise (`Thrown`: an
   * exception raised by a library or a remote call, which the service does
   * not catch).
   */
  datatype Reply<T> = Ok(value: T) | Err(error: Error) | Thrown
}
