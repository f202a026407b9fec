/** Values that may be missing, and outcomes that may be errors. */
module Results {

  datatype Option<+T> = None | Some(value: T)

  /** What a service call ends with: a value, or the error it throws. */
  datatype Result<+T, +E> = Ok(value: T) | Err(error: E) {
    predicate IsFailure() {
      Err?
    }

    function PropagateFailure<U>(): Result<U, E>
      requires Err?
    {
      Err(error)
    }

    function Extract(): T
      requires Ok?
    {
      value
    }
  }
}
