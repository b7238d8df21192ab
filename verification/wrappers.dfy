/** Optional values: Swift's `T?`, used uniformly for every absent field. */
module Wrappers {

  datatype Option<+T> = None | Some(value: T)
}
