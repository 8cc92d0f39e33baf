/** What a lookup may find. */
module Wrappers {
  datatype Option<+T> = None | Some(value: T)
}
