/** Option, the stand-in for a signal that may or may not be emitted. */
module Wrappers {

  datatype Option<+T> = None | Some(value: T)
}
