/** Failure-carrying values shared by the rest of the model. */
module Wrappers {

  /** A value that may be absent: JavaScript's `undefined` becomes `None`. */
  datatype Option<+T> = None | Some(value: T) {

    /** Turns an absent value into the given error. */
    function ToResult<E>(error: E): (r: Result<T, E>)
      ensures r.Ok? <==> Some?
      ensures r.Ok? ==> r.value == value
      ensures r.Err? ==> r.error == error
    {
      match this
      case Some(v) => Ok(v)
      case None => Err(error)
    }
  }

  /** The outcome of an operation that can fail with an error of type `E`. */
  datatype Result<+T, +E> = Ok(value: T) | Err(error: E)
}
