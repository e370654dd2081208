/** Option and Result, used for JavaScript's `null` and for rejected promises. */
module Wrappers {

  /** `None` stands for JavaScript's `null`/`undefined`. */
  datatype Option<+T> = None | Some(value: T)

  /** The outcome of an `async` call: a resolved value or a rejection. */
  datatype Result<+R, +E> = Success(value: R) | Failure(error: E)
}
