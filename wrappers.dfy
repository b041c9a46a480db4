/** Optional values: the model's counterpart of a TypeScript `T | null`. */
module Wrappers {
  datatype Option<+T> = None | Some(value: T)
}
