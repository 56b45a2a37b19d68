/** Optional values: PHP's "no value" (`null`) next to a string result. */
module Wrappers {

  datatype Option<T> = None | Some(value: T)
}
