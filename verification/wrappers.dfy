/** The optional-value type the classifier returns: a call-site yields a record or nothing. */
module Wrappers {

  datatype Option<+T> = None | Some(value: T)
}
