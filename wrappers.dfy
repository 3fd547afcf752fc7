/** Swift's optional values, used for a parse that may fail and a stored key that may be absent. */
module Wrappers {
  datatype Option<+T> = None | Some(value: T)
}
