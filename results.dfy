/** Optional values and results: the shapes the Python code expresses with None and with
    raised exceptions. */
module Results {

  datatype Option<+T> = None | Some(value: T)

  /** `Failure` carries the text an exception would carry (`str(e)`). */
  datatype Result<+T, +E> = Success(value: T) | Failure(error: E) {
    predicate IsFailure() {
      Failure?
    }

    function PropagateFailure<U>(): Result<U, E>
      requires Failure?
    {
      Failure(error)
    }

    function Extract(): T
      requires Success?
    {
      value
    }
  }
}
