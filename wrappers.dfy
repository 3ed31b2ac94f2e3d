/** Values shared by every handler: optional values, the error a handler passes to
    `next` (a message and an HTTP status code), and a handler outcome. */
module Wrappers {

  datatype Option<+T> = None | Some(value: T)

  /** The error object a handler hands to `next(new ErrorHandler(message, status))`. */
  datatype ApiError = ApiError(message: string, statusCode: int)

  /** What a handler produces: a value for the success response, or the error it reports. */
  datatype Result<+T> = Ok(value: T) | Err(error: ApiError)

  /** JavaScript truthiness of an optional string field: present and not empty. */
  predicate TruthyString(x: Option<string>)
  {
    x.Some? && x.value != ""
  }

  /** JavaScript truthiness of an optional number field: present and not 0. */
  predicate TruthyNumber(x: Option<int>)
  {
    x.Some? && x.value != 0
  }
}
