/** Go's `(value, error)` and bare `error` returns, as datatypes. */
module Results {

  datatype Option<+T> = None | Some(value: T)

  /** A value or the error that replaced it. */
  datatype Result<+T> = Ok(value: T) | Err(error: string)

  /** A Go function that returns only an `error`: nil is `Done`. */
  datatype Status = Done | Failed(error: string)
}
