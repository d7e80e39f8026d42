/** Values that may be missing, for every module that needs them. */
module Wrappers {

  datatype Option<+T> = None | Some(value: T)
}
