/** Optional values: Swift's `T?` in this model. */
module Wrappers {

  datatype Option<+T> = None | Some(value: T)
}
