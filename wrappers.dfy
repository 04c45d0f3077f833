/** The optional value used wherever a Python function returns `None` or a value. */
module Wrappers {

  datatype Option<+T> = None | Some(value: T)

}
