/** A value that may be absent, used where the source returns `None` or takes an optional argument. */
module Wrappers {

  datatype Option<+T> = None | Some(value: T)
}
