/**
 * The link endpoint's error values: the `APIError` class the handler raises
 * on purpose, and the wider set of things a `throw` inside it can carry.
 */
module Errors {
  /** `APIError`: a message with the HTTP status and the code the response reports. */
  datatype ApiError = ApiError(message: string, statusCode: nat, code: string)

  /** What a `throw` carries: an `APIError`, some other `Error` with its message, or a value that is no `Error`. */
  datatype Thrown = Api(error: ApiError) | Plain(message: string) | NotAnError

  /** The message of every response for an error that is not an `APIError`. */
  const InternalMessage := "An internal error occurred. Please try again later."
}
