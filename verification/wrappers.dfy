/** Optional values, standing in for the `null` / `undefined` of the TypeScript source. */
module Wrappers {

  datatype Option<+T> = None | Some(value: T)
}
