/** The optional value used wherever the source has `None` or pandas `NA`. */
module Wrappers {
  datatype Option<+T> = None | Some(value: T)
}
