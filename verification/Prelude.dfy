/** The result types every other module shares. */
module Prelude {

  datatype Option<+T> = None | Some(value: T)

  datatype Result<+T, +E> = Success(value: T) | Failure(error: E)

  /** One octet of a `Uint8Array`. */
  type byte = x: int | 0 <= x < 256 witness 0
}
