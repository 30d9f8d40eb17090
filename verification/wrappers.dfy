/** Failure-compatible wrappers used by the rest of the model. */
module Wrappers {

  /** An optional value; `None` stands for a Java null reference. */
  datatype Option<+T> = None | Some(value: T) {

    /** The value, or a failure carrying `error` when there is none. */
    function ToResultOr<E>(error: E): (r: Result<T, E>)
      ensures r.Success? <==> Some?
      ensures Some? ==> r == Success(value)
      ensures None? ==> r == Failure(error)
    {
      match this
      case Some(v) => Success(v)
      case None => Failure(error)
    }
  }

  /** Either a value or the error that a Java method would have thrown instead. */
  datatype Result<+R, +E> = Success(value: R) | Failure(error: E) {

    predicate IsFailure() {
      Failure?
    }

    function PropagateFailure<U>(): Result<U, E>
      requires Failure?
    {
      Failure(error)
    }

    function Extract(): R
      requires Success?
    {
      value
    }
  }
}
