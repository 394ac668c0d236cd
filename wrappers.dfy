/** Optional values, used for JavaScript's NaN / missing results and for "no data". */
module Wrappers {

  datatype Option<+T> = None | Some(value: T)
}
