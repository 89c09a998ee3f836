/** The optional value used where the source returns a record or `None`. */
module Wrappers {

  datatype Option<+T> = None | Some(value: T)
}
