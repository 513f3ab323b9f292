/** The optional value used for Go's nil-able results (a nil `error` is `None`). */
module Wrappers {
  datatype Option<+T> = None | Some(value: T)
}
