/** Option and Outcome values for the store's "null" results and thrown errors. */
module Wrappers {

  /** `null`/`undefined` versus a value. */
  datatype Option<+T> = None | Some(value: T)

  /** A call that either completes or throws `error`. */
  datatype Outcome<+E> = Pass | Fail(error: E)

  /** A call that either returns `value` or throws `error`. */
  datatype Result<+R, +E> = Success(value: R) | Failure(error: E)
}
