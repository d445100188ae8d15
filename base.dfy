/** Value types shared by every module of the model. */
module Base {

  /** An optional value: Rust's `Option<T>`, or a JavaScript value that may be `undefined`/`null`. */
  datatype Option<T> = None | Some(value: T)

  /** The largest value of Rust's `u32`. */
  const U32_MAX: int := 0xFFFF_FFFF

  /** Rust's unsigned integer types, as ranges of the mathematical integers. */
  newtype u32 = x: int | 0 <= x <= 0xFFFF_FFFF
  newtype u64 = x: int | 0 <= x <= 0xFFFF_FFFF_FFFF_FFFF
}
