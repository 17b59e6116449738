/** The optional value shared by every module: the source's `None` or a value. */
module Wrappers {
  datatype Option<+T> = None | Some(value: T)
}
