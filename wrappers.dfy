/** Option and Result values used for the source's `None` returns and raised exceptions. */
module Wrappers {

  datatype Option<+T> = None | Some(value: T)

  /** `Failure` stands for a Python exception the modelled code raises or propagates. */
  datatype Result<+R, +E> = Success(value: R) | Failure(error: E)
}
