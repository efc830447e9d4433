/** The optional-value datatype the rest of the model uses for Python's `None`. */
module Wrappers {

  /** `None` or `Some(value)`, as Python's `x if cond else None`. */
  datatype Option<+T> = None | Some(value: T)
}
