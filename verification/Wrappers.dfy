/** The one container shared by every module: a value that may be absent. */
module Wrappers {
  datatype Option<+T> = None | Some(value: T)
}
