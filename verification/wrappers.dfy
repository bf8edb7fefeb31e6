/** Optional values and success-or-error results, used for Python's `None`
    and for the `ValueError`s the validators raise. */
module Wrappers {

  /** A value that may be absent; `None` stands for Python's `None`. */
  datatype Option<+T> = None | Some(value: T)

  /** Either the value a validator returns or the error it raises. */
  datatype Result<+R, +E> = Success(value: R) | Failure(error: E)
}
