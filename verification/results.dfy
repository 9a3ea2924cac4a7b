/** Failure-compatible wrappers used throughout the model.

    The interpreter reports every error by panicking; the model turns each
    panic into an `Err` carrying the kind of failure, so a contract can say
    which inputs fail and why. `Option` mirrors Rust's `Option`. */
module Results {

  datatype Option<+T> = None | Some(value: T)

  datatype Result<+T, +E> = Ok(value: T) | Err(error: E) {

    predicate IsFailure() {
      Err?
    }

    function PropagateFailure<U>(): Result<U, E>
      requires Err?
    {
      Err(error)
    }

    function Extract(): T
      requires Ok?
    {
      value
    }
  }
}
