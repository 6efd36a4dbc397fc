/** Optional values (the source's nullable references) and results (the source's exceptions). */
module Wrappers {

  /** A value that may be absent: `None` stands for a C# `null`. */
  datatype Option<+T> = None | Some(value: T)

  /** The outcome of an operation that may throw: `Failure` carries what the exception reports. */
  datatype Result<+R, +E> = Success(value: R) | Failure(error: E)
}
