/** Result shapes shared by the model.

    Rust's `Option` and `Result` are `Option` and `Result` here. A `panic!`
    (or an out-of-bounds `split_at`) is not hidden behind a precondition:
    an operation that may panic returns an `Outcome`, so that the inputs
    that make it panic can be stated and proved. */
module Outcomes {

  datatype Option<+T> = None | Some(value: T)

  datatype Result<+T, +E> = Ok(value: T) | Err(error: E)

  /** Either the operation returns `value`, or it panics with `message`. */
  datatype Outcome<+T> = Done(value: T) | Panic(message: string)
}
