/** Python's `None`-or-value, as used for optional arguments and attributes. */
module Wrappers {

  datatype Option<+T> = None | Some(value: T)
}
