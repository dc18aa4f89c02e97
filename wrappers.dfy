/** Absence as a value: JavaScript's `null` results and thrown exceptions. */
module Wrappers {

  datatype Option<+T> = None | Some(value: T)
}
