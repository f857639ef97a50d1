/** The optional value used for Java's nullable references and "did it throw?" answers. */
module Wrappers {
  datatype Option<+T> = None | Some(value: T)
}
