/** The absent-or-present result that the Python code expresses with `None`. */
module Wrappers {
  datatype Option<+T> = None | Some(value: T)
}
