/** The two result shapes the Rust and TypeScript sources use everywhere. */
module Wrappers {
  datatype Option<+T> = None | Some(value: T)

  datatype Result<+R, +E> = Ok(value: R) | Err(error: E)

  /** A byte of a file, a stream or an encoded string. */
  newtype Byte = b: int | 0 <= b < 256

  type Bytes = seq<Byte>
}
