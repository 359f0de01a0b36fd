/**
  Outcomes of the modelled operations. `Err` stands for an exception raised
  by the server handler or thrown by the page; `:-` propagates it as far as
  the handler or the page lets it travel.
 */
module Results {

  /** A value that may be missing: an absent dict key or object property. */
  datatype Option<T> = None | Some(value: T)

  /** A computed value, or the exception that ended the computation. */
  datatype Result<T, E> = Ok(value: T) | Err(error: E) {

    predicate IsFailure() {
      Err?
    }

    function PropagateFailure<U>(): Result<U, E>
      requires Err?
    {
      Err(error)
    }

    function Extract(): T
      requires Ok?
    {
      value
    }
  }
}
