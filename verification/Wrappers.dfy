/** Optional values: a missing upload, a NaN item id, a lookup that found nothing. */
module Wrappers {

  datatype Option<+T> = None | Some(value: T)
}
