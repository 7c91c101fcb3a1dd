/** Optional values: a field the task store may leave null. */
module Wrappers {

  datatype Option<+T> = None | Some(value: T)
}
