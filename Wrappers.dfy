/** The optional-value type used where the source returns a node or `null`. */
module Wrappers {

  datatype Option<+T> = None | Some(value: T)
}
