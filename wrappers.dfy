/** Optional values: the model's stand-in for C#'s nullable references. */
module Wrappers {
  datatype Option<+T> = None | Some(value: T)
}
