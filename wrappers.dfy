/** The optional value used wherever the source has `undefined` next to a value. */
module Wrappers {
  datatype Option<+T> = None | Some(value: T)
}
