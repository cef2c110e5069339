/** Return types for values that may be missing and for operations that may
    fail where the source throws.
 */
module Outcomes {

  /** A nullable value: None is the source's `null`. */
  datatype Option<+T> = None | Some(value: T) {

    /** The `??` operator: this value if present, else the fallback. */
    function GetOr(fallback: T): T {
      if Some? then value else fallback
    }
  }

  /** A computed value, or the error the source would have thrown. */
  datatype Result<+T, +E> = Ok(value: T) | Err(error: E)

  /** A validation step that returns normally or throws. */
  datatype Outcome<+E> = Pass | Fail(error: E)
}
