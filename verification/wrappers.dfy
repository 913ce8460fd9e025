/** Failure-compatible wrappers used throughout the model: an optional value
    (a JavaScript property that may be `undefined`) and a computation that
    either succeeds or throws. */
module Wrappers {

  /** An optional value; `None` stands for an absent (`undefined`) property. */
  datatype Option<+T> = None | Some(value: T) {

    /** Applies `f` to the carried value, if any. */
    function Map<U>(f: T -> U): (r: Option<U>)
      ensures r.Some? <==> Some?
      ensures Some? ==> r.value == f(value)
    {
      match this
      case None => None
      case Some(v) => Some(f(v))
    }
  }

  /** Either a value, or the exception a JavaScript `throw` would raise. */
  datatype Result<+R, +E> = Success(value: R) | Failure(error: E)
}
