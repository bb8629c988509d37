/** Option and Result, the two failure-carrying types the modelled code returns. */
module Wrappers {

  /** `Option<T>` of the source: a value or nothing. */
  datatype Option<+T> = None | Some(value: T) {

    /** The carried value, or `default` for `None`. */
    function GetOr(default: T): T {
      match this
      case Some(v) => v
      case None => default
    }
  }

  /** `Result<T, E>` of the source; usable with `:-` to propagate the first error. */
  datatype Result<+T, +E> = Ok(value: T) | Err(error: E) {

    predicate IsFailure() {
      Err?
    }

    function PropagateFailure<U>(): Result<U, E>
      requires Err?
    {
      Err(error)
    }

    function Extract(): T
      requires Ok?
    {
      value
    }

    /** The same result with its error converted by `f`, as `?` does through a `From` impl. */
    function MapFailure<E2>(f: E -> E2): Result<T, E2> {
      match this
      case Ok(v) => Ok(v)
      case Err(e) => Err(f(e))
    }
  }
}
