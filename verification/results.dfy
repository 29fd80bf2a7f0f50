/** Optional values and success-or-error results shared by the client and server models. */
module Results {

  /** A value that may be absent. */
  datatype Option<+T> = None | Some(value: T)

  /** The outcome of a validation step: the accepted value or the reason for rejecting it. */
  datatype Result<+T, +E> = Ok(value: T) | Err(error: E)
}
