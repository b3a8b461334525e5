/** The application's error classes: `ValidationError` and `NotFoundError`. */
module Errors {

  datatype AppError =
    | ValidationError(errors: seq<string>)
    | NotFoundError(message: string)

  /** The message every `ValidationError` carries; the field problems are in `errors`. */
  const ValidationText := "Invalid data provided"

  /** The message of a `NotFoundError` built without one. */

  /** `error.message`. */
  function Message(e: AppError): string
  {
    match e
    case ValidationError(_) => ValidationText
    case NotFoundError(m) => m
  }

  /** `error.name`, which the base class sets to the constructor's name. */
  function Name(e: AppError): string
  {
    match e
    case ValidationError(_) => "ValidationError"
    case NotFoundError(_) => "NotFoundError"
  }

  /**
   * A `ValidationError` always carries the same message, whatever its field errors, and the
   * two classes are told apart by `name`.
   */
  lemma ErrorIdentity(errors: seq<string>, message: string)
    ensures Message(ValidationError(errors)) == ValidationText
    ensures Message(NotFoundError(message)) == message
    ensures Name(ValidationError(errors)) != Name(NotFoundError(message))
  {
  }
}
