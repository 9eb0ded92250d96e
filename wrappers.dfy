/** Optional values, used for the storage cell and the pending retry action. */
module Wrappers {

  datatype Option<+T> = None | Some(value: T)
}
