/** Optional values, used for absent storage entries and untouched styles. */
module Wrappers {

  datatype Option<+T> = None | Some(value: T)
}
