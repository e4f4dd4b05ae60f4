/** Option and Result, the failure-compatible types every loader returns. */
module Wrappers {

  datatype Option<+T> = None | Some(value: T)

  /** The result of a load step: a value, or the reason the step stopped. */
  datatype Result<+T, +E> = Ok(value: T) | Err(error: E) {

    predicate IsFailure() {
      Err?
    }

    function PropagateFailure<U>(): Result<U, E>
      requires Err?
    {
      Err(error)
    }

    function Extract(): T
      requires Ok?
    {
      value
    }
  }
}
