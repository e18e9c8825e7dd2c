/** Fixed-width integer types of the C++ source, as subset types of `int`. */
module Ints {
  /** `int16_t`: the raw signal strength reported with an advertisement. */
  type int16 = x: int | -0x8000 <= x < 0x8000

  /** `int`: the value type of the averaging filter. */
  type int32 = x: int | -0x8000_0000 <= x < 0x8000_0000

  /** `int64_t`: the accumulator of the filter and the tick count of a `DateTime`. */
  type int64 = x: int | -0x8000_0000_0000_0000 <= x < 0x8000_0000_0000_0000
}

/** The usual optional and success/failure wrappers. */
module Wrappers {
  datatype Option<+T> = None | Some(value: T)

  datatype Result<+R, +E> = Success(value: R) | Failure(error: E)
}
