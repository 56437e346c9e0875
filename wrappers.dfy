/** The optional value used wherever the host can hand back "undefined". */
module Wrappers {

  datatype Option<+T> = None | Some(value: T)
}
