/** Optional values, used for the outcomes of lookups and of operations that may fail. */
module Wrappers {

  datatype Option<+T> = None | Some(value: T)
}
