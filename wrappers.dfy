/** The optional-value datatype used for replies that may not be sent and matches that may fail. */
module Wrappers {
  datatype Option<+T> = None | Some(value: T)
}
