/** The "no value" result of lookups that may fail. */
module Wrappers {
  datatype Option<+T> = None | Some(value: T)
}
