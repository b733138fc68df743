/** The optional value used for Python's `None`-or-value results and for "this step raised". */
module Wrappers {

  datatype Option<+T> = None | Some(value: T)
}
