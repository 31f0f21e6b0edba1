/** Small helper types shared by the model. */
module Wrappers {

  /** A value that may be absent: the shape of an optional field or a cache slot. */
  datatype Option<+T> = None | Some(value: T)
}
