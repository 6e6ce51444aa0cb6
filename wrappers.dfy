/** The optional value used wherever the script returns `None` for "absent". */
module Wrappers {

  datatype Option<+T> = None | Some(value: T)
}
