/** Optional values: a nullable row from the store, an absent session id. */
module Wrappers {

  datatype Option<+T> = None | Some(value: T)
}
