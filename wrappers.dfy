/** Optional values: `None` stands where the Java code holds `null`. */
module Wrappers {

  datatype Option<T> = None | Some(value: T)
}
