/** The optional value used for nullable database columns and cache entries. */
module Wrappers {
  datatype Option<+T> = None | Some(value: T)
}
