/** Optional values: `undefined`/`null` results of `find`, `findIndex` and friends. */
module Wrappers {

  datatype Option<+T> = None | Some(value: T)
}
