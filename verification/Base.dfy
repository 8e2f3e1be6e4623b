/** Types every other module shares. */
module Base {
  datatype Option<+T> = None | Some(value: T)

  datatype Result<+T, +E> = Ok(value: T) | Err(error: E)

  /** One octet. Rust's `u8` operations are written out over integers. */
  type byte = x: int | 0 <= x < 256

  type Bytes = seq<byte>
}
