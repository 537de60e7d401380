/** Optional values, shared by the modules that model dictionary lookups. */
module Wrappers {

  datatype Option<T> = None | Some(value: T)
}
