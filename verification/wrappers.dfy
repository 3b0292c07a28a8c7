/** Optional values, such as the last collector emitting a key, if any. */
module Wrappers {

  datatype Option<+T> = None | Some(value: T)
}
