/** The two-valued results that the pipeline's Python functions return as
    `(value, None)` or `(None, message)`: `None` becomes `Option.None`. */
module Wrappers {

  datatype Option<+T> = None | Some(value: T)
}
