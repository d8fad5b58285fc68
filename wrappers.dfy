/** The absence-or-value type used where the source returns `None` or raises. */
module Wrappers {
  datatype Option<+T> = None | Some(value: T)
}
