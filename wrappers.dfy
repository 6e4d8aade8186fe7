/** Failure-carrying values shared by the rest of the model. */
module Wrappers {

  datatype Option<+T> = None | Some(value: T)

  /** The value if present, else `otherwise`: how a spread `{...old, ...patch}` picks each field. */
  function OrElse<T>(v: Option<T>, otherwise: T): (r: T)
    ensures v.Some? ==> r == v.value
    ensures v.None? ==> r == otherwise
  {
    if v.Some? then v.value else otherwise
  }

  /** The value of a computation, or the error it throws. */
  datatype Result<+R, +E> = Ok(value: R) | Err(error: E)

  /** A computation run for its effect only: it completes, or it throws. */
  datatype Outcome<+E> = Pass | Fail(error: E)
}
