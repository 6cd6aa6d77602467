/** Go's fixed-width integer types and the Option/Result wrappers used by the model. */
module Primitives {

  /** Go `byte` */
  newtype byte = x: int | 0 <= x < 0x100

  /** Go `uint64` */
  newtype uint64 = x: int | 0 <= x < 0x1_0000_0000_0000_0000

  /** Go `int64` (the type of `time.Time.UnixMilli`) */
  newtype int64 = x: int | -0x8000_0000_0000_0000 <= x < 0x8000_0000_0000_0000

  /** A Go pointer that may be nil, such as `*uint64`. */
  datatype Option<+T> = None | Some(value: T)

  /** A Go `(value, error)` pair where exactly one side is meaningful. */
  datatype Result<+R, +E> = Success(value: R) | Failure(error: E)
}
