/** Optional values: a cookie that may be absent, a scan that may find nothing. */
module Wrappers {

  datatype Option<+T> = None | Some(value: T)
}
