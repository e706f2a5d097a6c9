/** The outcome of a request handler: a value, or the error the handler answers with. */
module Results {

  datatype Option<+T> = None | Some(value: T)

  /** Failure-compatible, so that `:-` stops at the first failing step as an early return does. */
  datatype Result<+T, +E> = Ok(value: T) | Err(error: E) {

    predicate IsFailure() {
      Err?
    }

    function PropagateFailure<U>(): Result<U, E>
      requires Err?
    {
      Err(error)
    }

    function Extract(): T
      requires Ok?
    {
      value
    }
  }
}
