/** Optional values: JavaScript's `null`-or-value fields and failed parses. */
module Wrappers {

  datatype Option<+T> = None | Some(value: T)
}
