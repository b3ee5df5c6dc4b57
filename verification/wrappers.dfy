/** The two failure-carrying shapes used throughout the model: a value that
    may be absent (`X | None` in the service) and a value or an error (a call
    that either returns or raises). */
module Wrappers {

  datatype Option<T> = None | Some(value: T) {
    /** The carried value, or `default` when there is none. */
    function GetOr(default: T): T {
      if Some? then value else default
    }
  }

  datatype Result<T, E> = Ok(value: T) | Err(error: E)
}
