/** The optional value used for Python's `None` and for the parsers' failure results. */
module Wrappers {
  datatype Option<+T> = None | Some(value: T)
}
