/** The optional value used wherever the program returns `None` or a call may not
    deliver a result. */
module Wrappers {

  datatype Option<+T> = None | Some(value: T)
}
