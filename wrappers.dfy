/** The optional value used where the source returns `None` for "no value". */
module Wrappers {

  datatype Option<+T> = None | Some(value: T)
}
