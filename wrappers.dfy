/** The optional value used wherever the source returns a possibly-null pointer or a std::optional. */
module Wrappers {

  datatype Option<+T> = None | Some(value: T)
}
