/** Optional values, used where the Python code returns `None` or may find nothing. */
module Wrappers {

  datatype Option<+T> = None | Some(value: T)
}
