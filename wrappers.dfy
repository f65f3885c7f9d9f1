/** The optional value the source expresses with Python's `None`. */
module Wrappers {

  datatype Option<+T> = None | Some(value: T)
}
