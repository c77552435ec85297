/** Optional values and results with an error message, used throughout the model
    for JavaScript's `null`/`undefined` and for thrown errors. */
module Wrappers {

  datatype Option<T> = None | Some(value: T) {
    function GetOr(default: T): T {
      match this
      case Some(v) => v
      case None => default
    }
  }

  /** `Err` carries the message of the error the source throws. */
  datatype Result<T> = Ok(value: T) | Err(message: string)

  /** JavaScript `a || b` on two optional values: the first present one. */
  function OrElse<T>(a: Option<T>, b: Option<T>): (r: Option<T>)
    ensures a.Some? ==> r == a
    ensures a.None? ==> r == b
  {
    if a.Some? then a else b
  }
}
