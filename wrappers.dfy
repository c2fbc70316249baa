/** The Some/None datatype used for Python's `None` and for steps that can raise. */
module Wrappers {

  datatype Option<+T> = None | Some(value: T)
}
