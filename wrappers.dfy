/** Optional values, used for the results of parsing and of partial mappings. */
module Wrappers {

  datatype Option<+T> = None | Some(value: T)
}
