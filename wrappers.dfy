/** The usual optional-value datatype; `None` stands for JavaScript's NaN,
    a missing winner or an unset modal. */
module Wrappers {
  datatype Option<+T> = None | Some(value: T)
}
