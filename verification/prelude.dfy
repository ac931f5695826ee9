/** Go's error values, optional (nil-able) values and fixed-width integers,
    shared by the rest of the model. */
module Prelude {

  /** A value that Go may leave nil. */
  datatype Option<+T> = None | Some(value: T)

  /** An opaque Go `error`; only its text is kept. */
  datatype Error = Error(message: string)

  /** A Go `(T, error)` pair where exactly one side is meaningful. */
  datatype Result<+T> = Ok(value: T) | Err(error: Error)

  /** Go's `int32`. */
  newtype int32 = x: int | -0x8000_0000 <= x < 0x8000_0000

  /** Go's `int64`. */
  newtype int64 = x: int | -0x8000_0000_0000_0000 <= x < 0x8000_0000_0000_0000
}
