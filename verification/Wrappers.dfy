/** Small stock types shared by every module. */
module Wrappers {

  /** A value that may be absent: the source's `undefined`. */
  datatype Option<+T> = None | Some(value: T)
}
