/** Optional values, used where the persistence layer answers "no document". */
module Wrappers {
  datatype Option<+T> = None | Some(value: T)
}
