/** Option and Result, the failure-carrying values the rest of the model returns. */
module Wrappers {

  datatype Option<+T> = None | Some(value: T)

  datatype Result<+T, +E> = Success(value: T) | Failure(error: E)

  /** The HTTP exceptions the services throw, each with its message. */
  datatype HttpError =
    | BadRequest(message: string)
    | NotFound(message: string)
    | InternalServerError(message: string)

  /** Stands for the text of an error raised by the database client; the model does not reproduce it. */
  const DbErrorMessage: string := "database error"
}
