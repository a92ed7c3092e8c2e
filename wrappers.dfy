/** Optional values: the model's stand-in for a C# `null` reference. */
module Wrappers {

  datatype Option<+T> = None | Some(value: T)
}
