/** A value that may be absent (a Kotlin nullable). */
module Wrappers {
  datatype Option<+T> = None | Some(value: T)
}
