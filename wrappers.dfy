/** Failure-carrying datatypes shared by the whole model. */
module Wrappers {

  /** Rust's `Option<T>`. */
  datatype Option<+T> = None | Some(value: T)

  /** Rust's `Result<T, E>`. */
  datatype Result<+T, +E> = Ok(value: T) | Err(error: E)

  /** The outcome of Rust code that may panic (`unwrap`, `expect`, `assert!`):
      it either returns a value or aborts the program with a message. */
  datatype Run<+T> = Returns(value: T) | Panics(message: string) {

    predicate IsFailure() {
      Panics?
    }

    /** A panic unwinds through every caller unchanged. */
    function PropagateFailure<U>(): Run<U>
      requires Panics?
    {
      Panics(message)
    }

    function Extract(): T
      requires Returns?
    {
      value
    }
  }
}
