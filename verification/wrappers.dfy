/** The optional-value datatype used for the Java fields that start out `null`. */
module Wrappers {

  /** `None` plays the role of a `null` reference. */
  datatype Option<+T> = None | Some(value: T)
}
