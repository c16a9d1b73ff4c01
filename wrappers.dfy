/** The outcome of an operation that can raise the emulator's only exception, OverflowError. */
module Wrappers {

  datatype Option<T> = None | Some(value: T)

  /** `Overflow` stands for a raised OverflowError. */
  datatype Result<T> = Ok(value: T) | Overflow
}
