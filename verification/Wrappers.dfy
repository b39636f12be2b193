/** Results that may be missing. */
module Wrappers {
  datatype Option<+T> = None | Some(value: T)

  /** What a call that may raise, or a step that may not be possible, comes to. */
  datatype Outcome<+T> = Ok(value: T) | Failed
}
