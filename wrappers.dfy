/** The Python `None`-or-value convention used throughout the library. */
module Wrappers {

  datatype Option<+T> = None | Some(value: T)
}
