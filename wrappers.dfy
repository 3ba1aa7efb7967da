/** Failure-carrying results shared by every module of the model. */
module Wrappers {

  /** Rust's `Option` and Python's "value or nothing". */
  datatype Option<+T> = None | Some(value: T)

  /** The result of a Rust function that may `panic!` (or a Python function
      that may raise an exception nobody catches): either the value it
      returns, or the reason it stopped. */
  datatype Outcome<+T> = Returned(value: T) | Panicked(reason: string)
}
