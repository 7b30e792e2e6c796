/** The optional value used wherever the source tests a field or a lookup for
    `null`/`undefined`. */
module Wrappers {
  datatype Option<+T> = None | Some(value: T)
}
