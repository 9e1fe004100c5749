/** The optional value used wherever the Java code works with a nullable reference. */
module Wrappers {
  datatype Option<+T> = None | Some(value: T)
}
