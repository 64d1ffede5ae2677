/** Failure-carrying datatypes shared by the whole model. */
module Wrappers {

  /** A value that JavaScript may leave `null` or `undefined`. */
  datatype Option<+T> = None | Some(value: T)

  /** A computation that either returns a value or throws an error. */
  datatype Result<+T, +E> = Ok(value: T) | Err(error: E)

  /** The outcome of an awaited call into a service the model cannot see
      (the auth provider, the database, the rate limiter, the mail API):
      it either throws or returns a value. */
  datatype Call<+T> = Threw | Returned(value: T)
}
