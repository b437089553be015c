/** Optional values, used for C functions that may find nothing or reject their input. */
module Wrappers {

  datatype Option<+T> = None | Some(value: T)
}
