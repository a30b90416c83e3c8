/** Failure-compatible result types shared by the modules below. */
module Wrappers {
  datatype Option<+T> = None | Some(value: T)

  /** The result of an operation that the source either returns from or throws out of. */
  datatype Result<+T, +E> = Ok(value: T) | Err(error: E) {
    predicate IsFailure() {
      Err?
    }

    function PropagateFailure<U>(): Result<U, E>
      requires Err?
    {
      Err(error)
    }

    function Extract(): T
      requires Ok?
    {
      value
    }
  }
}
