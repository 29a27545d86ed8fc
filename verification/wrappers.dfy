/** Failure-carrying return types shared by the driver and monitor models.
    A Python `raise` in the source becomes an `Err` or a `Fail` carrying the
    exception kind. */
module Wrappers {

  datatype Option<+T> = None | Some(value: T)

  datatype Result<+T, +E> = Ok(value: T) | Err(error: E)

  /** The outcome of a call that returns nothing on success. */
  datatype Outcome<+E> = Pass | Fail(error: E)
}
