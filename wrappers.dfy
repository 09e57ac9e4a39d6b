/** Optional values and results, used for Python's `None` and for raised exceptions. */
module Wrappers {

  /** `None` stands for a missing key or a `None` value; `Some(v)` for a present value. */
  datatype Option<+T> = None | Some(value: T)

  /** The outcome of an operation that can raise: `Failure` carries the exception. */
  datatype Result<+R, +E> = Success(value: R) | Failure(error: E)
}
