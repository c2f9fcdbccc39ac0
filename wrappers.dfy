/** A value that may be absent: the model's stand-in for an early `return`
    or a failed parse. */
module Wrappers {
  datatype Option<+T> = None | Some(value: T)
}
