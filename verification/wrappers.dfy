/** The Some/None datatype that stands for Python's `None` return. */
module Wrappers {

  datatype Option<+T> = None | Some(value: T)
}
