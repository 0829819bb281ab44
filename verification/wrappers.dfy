/** Optional values: JavaScript's `undefined` result of a failed search. */
module Wrappers {

  datatype Option<+T> = None | Some(value: T)

}
