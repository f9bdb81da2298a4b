/** The Option type used for the source's thrown errors and absent values. */
module Wrappers {
  datatype Option<+T> = None | Some(value: T)
}
