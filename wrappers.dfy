/** Failure-carrying result types shared by the whole model. */
module Wrappers {

  /** An optional value: Rust's `Option`. */
  datatype Option<+T> = None | Some(value: T)

  /** The outcome of an operation that may `panic!` (or `unwrap` a `None`) in the source. */
  datatype Result<+T> = Ok(value: T) | Panic(reason: string)
}
