/** Optional values, the HTTP errors the services raise, and results that are
    either a value or such an error. */
module Results {

  datatype Option<T> = None | Some(value: T)

  /** An HTTPException: its kind fixes the status code, `detail` is its message. */
  datatype Error =
    | NotFound(detail: string)
    | BadRequest(detail: string)
    | Forbidden(detail: string)
    | TooLarge(detail: string)
    | ServerError(detail: string)
  {
    /** The HTTP status code the exception carries. */
    function Status(): int
    {
      match this
      case NotFound(_) => 404
      case BadRequest(_) => 400
      case Forbidden(_) => 403
      case TooLarge(_) => 413
      case ServerError(_) => 500
    }
  }

  datatype Result<T> = Ok(value: T) | Err(error: Error)
}
