/** The optional value used by the parsers and label lookups of the model. */
module Wrappers {
  datatype Option<+T> = None | Some(value: T)
}
