/** Optional values and error results shared by every module of the model. */
module Wrappers {

  /** A value that may be absent (`undefined` / `null` in the application). */
  datatype Option<+T> = None | Some(value: T)
  {
    /** The JavaScript `??` operator: the value when present, otherwise `fallback`. */
    function OrElse(fallback: T): T
    {
      if Some? then value else fallback
    }
  }

  /** The outcome of an operation that either produces a value or raises an error. */
  datatype Result<+T, +E> = Ok(value: T) | Err(error: E)
}
