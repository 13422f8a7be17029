/** An optional value, standing for Kotlin's nullable types (`Double?`). */
module Wrappers {

  datatype Option<+T> = None | Some(value: T)
}
