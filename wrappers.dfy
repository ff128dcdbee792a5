/** Failure-carrying results used across the model. */
module Wrappers {

  /** A value that may be absent: Python's `None` versus a present value. */
  datatype Option<+T> = None | Some(value: T)

  /** The outcome of an operation that can raise. */
  datatype Result<+R, +E> = Success(value: R) | Failure(error: E)
}

/** Octets, as fed to an encoder. */
module Bytes {

  /** One octet. */
  type byte = x: int | 0 <= x < 256
}
