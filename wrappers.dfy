/** Option and Result, the two failure-carrying types the Rust code returns. */
module Wrappers {

  datatype Option<+T> = None | Some(value: T)

  /** `std::result::Result`: a value or an error. */
  datatype Result<+T, +E> = Ok(value: T) | Err(error: E)

  /** The unit value, for `Result<()>`. */
  datatype Unit = Unit
}
