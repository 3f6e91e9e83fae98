/** Optional values, standing for JavaScript's `undefined` / missing properties. */
module Wrappers {

  datatype Option<+T> = None | Some(value: T)
}
