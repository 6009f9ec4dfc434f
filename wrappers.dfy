/** The Option type used for lookups that may find nothing. */
module Wrappers {
  datatype Option<+T> = None | Some(value: T)
}
