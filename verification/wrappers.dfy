/** Optional values: the result of a parse function that may fail. */
module Wrappers {

  /** Either no value, or one value of type T. */
  datatype Option<+T> = None | Some(value: T)
}
