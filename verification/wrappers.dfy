/** The optional-value datatype used by the loaders and the client replies. */
module Wrappers {

  datatype Option<+T> = None | Some(value: T)
}
