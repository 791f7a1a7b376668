/** The absent-or-present value that stands for a nullable C pointer. */
module Wrappers {
  datatype Option<+T> = None | Some(value: T)
}
