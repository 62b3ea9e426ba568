/** Optional values: Python's None is None here. */
module Wrappers {

  datatype Option<+T> = None | Some(value: T)
}
