/** The optional value used for the classifier's answer: `None` when the
    model artifacts could not be loaded, `Some(grade)` otherwise. */
module Wrappers {
  datatype Option<+T> = None | Some(value: T)
}
