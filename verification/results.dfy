/** Failure-compatible wrappers used by the lexer, the token codec and the parser. */
module Results {

  /** An optional value: a regex match that may fail, a search that may find nothing. */
  datatype Option<+T> = None | Some(value: T)

  /** Either a value or an error; usable with `:-` for early return. */
  datatype Result<+T, +E> = Success(value: T) | Failure(error: E) {

    predicate IsFailure() {
      Failure?
    }

    function PropagateFailure<U>(): Result<U, E>
      requires Failure?
    {
      Failure(error)
    }

    function Extract(): T
      requires Success?
    {
      value
    }
  }
}
