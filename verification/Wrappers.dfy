/** The usual optional value, for the source's NULL results. */
module Wrappers {
  datatype Option<+T> = None | Some(value: T)
}
