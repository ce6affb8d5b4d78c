/** The optional-value type used wherever the source returns None or an empty string. */
module Wrappers {

  datatype Option<+T> = None | Some(value: T)
}
