/** Optional values: TypeScript's `T | undefined` (an optional property or a `find` miss). */
module Wrappers {

  datatype Option<+T> = None | Some(value: T)
}
