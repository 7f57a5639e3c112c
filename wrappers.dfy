/** The optional-value wrapper used for "found or not" and for the optional delay. */
module Wrappers {
  datatype Option<+T> = None | Some(value: T)
}
