/**
 * What a handler answers.  Every failure the controllers report is
 * `c.JSON(status, {"error": message})`; the three constructors are the three
 * status codes they use.
 */
module Http {
  /** An error response: 400, 404 or 500 with its message. */
  datatype Failure =
    | BadRequest(message: string)
    | NotFound(message: string)
    | ServerError(message: string)
  {
    function Status(): int {
      match this
      case BadRequest(_) => 400
      case NotFound(_) => 404
      case ServerError(_) => 500
    }
  }

  /** A handler's outcome: 200 with a payload, or a failure. */
  datatype Result<T> = Ok(value: T) | Err(failure: Failure)
  {
    function Status(): int {
      match this
      case Ok(_) => 200
      case Err(f) => f.Status()
    }
  }

  /** A request body after gin's `BindJSON`: the decoded value, or the decoder's error text. */
  datatype Binding<T> = Bound(value: T) | BindError(message: string)

  /** The message every handler sends when the Authorization header is unusable. */
  const InternalError := "internal server error"
}
