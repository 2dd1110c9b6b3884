/** Optional values: a JavaScript `undefined` / missing field is `None`. */
module Wrappers {

  datatype Option<+T> = None | Some(value: T)
}
