/** The small vocabulary every other module shares: Rust's `Option` and
    `Result`, and the byte buffer (`bytes::Bytes`) that holds a response body. */
module Prelude {

  /** Rust's `Option<T>`. */
  datatype Option<+T> = None | Some(value: T)

  /** Rust's `Result<T, E>`: `Ok` carries a value, `Err` an error. */
  datatype Result<+T, +E> = Ok(value: T) | Err(error: E)

  /** An octet. */
  newtype byte = x: int | 0 <= x < 256

  /** The contents of an immutable, shareable byte buffer. Sharing is
      invisible in a value model, so only the contents remain. */
  type ByteString = seq<byte>
}
