/** Optional values and success-or-error results, shared by every module of the model.
    `Option` stands for a Java reference that may be null or a JavaScript value that may be
    missing; `Result` stands for a call that either returns or raises. */
module Wrappers {

  datatype Option<+T> = None | Some(value: T) {
    function GetOr(default: T): T {
      if Some? then value else default
    }

    /** This value, or `default` in place of a missing one: the `if (x == null) x = d;` step of
        an entity's persist hook. */
    function OrDefault(default: T): (r: Option<T>)
      ensures r.Some?
      ensures Some? ==> r == this
      ensures None? ==> r == Some(default)
    {
      if Some? then this else Some(default)
    }
  }

  datatype Result<+T, +E> = Success(value: T) | Failure(error: E)
}
