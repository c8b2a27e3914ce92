/** Optional values, the Dafny counterpart of Python's `None`. */
module Wrappers {
  datatype Option<+T> = None | Some(value: T)
}
