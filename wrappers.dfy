/** The conventional optional value, standing for Java's and JavaScript's nullable references. */
module Wrappers {
  datatype Option<+T> = None | Some(value: T)
}
