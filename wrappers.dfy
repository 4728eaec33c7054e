/** Optional values: a lookup that may find nothing (a Java `null`). */
module Wrappers {

  datatype Option<+T> = None | Some(value: T)
}
