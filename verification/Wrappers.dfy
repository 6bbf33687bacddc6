/** Result types shared by every component. */
module Wrappers {
  datatype Option<+T> = None | Some(value: T)

  datatype Result<+T, +E> = Ok(value: T) | Err(error: E)

  /** Anything asked of the outside, be it a command or a database access: it succeeds only
      if it is possible, and always then when the outside is reliable. */
  method Attempt(possible: bool, reliable: bool) returns (ok: bool)
    ensures ok ==> possible
    ensures reliable && possible ==> ok
  {
    ok := *;
    if reliable || !possible {
      ok := possible;
    }
  }
}
