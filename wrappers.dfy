/** The Option and Result shapes the Rust code uses for absent values and
    recoverable errors. */
module Wrappers {

  datatype Option<+T> = None | Some(value: T)

  datatype Result<+R, +E> = Ok(value: R) | Err(error: E)
}
