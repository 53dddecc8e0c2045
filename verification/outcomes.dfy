/** The two result shapes the Python code expresses with `None` and with
    exceptions, and the truthiness of an optional string. */
module Outcomes {
  /** `X | None`. */
  datatype Option<+T> = None | Some(value: T) {
    /** The value, or `default` when there is none. */
    function GetOr(default: T): T {
      if Some? then value else default
    }
  }

  /** A call that either returns a value or raises an error. */
  datatype Result<+R, +E> = Ok(value: R) | Err(error: E)

  /** Python truthiness of `str | None`: neither `None` nor `''`. */
  predicate Filled(s: Option<string>) {
    s.Some? && s.value != ""
  }
}
