/** Failure-compatible wrappers: a cache miss is `None`, a failed chain read is `Err`. */
module Results {

  datatype Option<+T> = None | Some(value: T)

  /** The outcome of an awaited read: a value, or the rejection that propagates to the caller. */
  datatype Result<+T> = Ok(value: T) | Err(message: string) {

    predicate IsFailure() {
      Err?
    }

    function PropagateFailure<U>(): Result<U>
      requires Err?
    {
      Err(message)
    }

    function Extract(): T
      requires Ok?
    {
      value
    }
  }
}
