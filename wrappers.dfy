/** The Option datatype used for every operation that can fail to produce a value. */
module Wrappers {
  datatype Option<+T> = None | Some(value: T)
}
