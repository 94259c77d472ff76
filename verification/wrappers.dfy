/** The optional value used wherever the modelled code may answer `null`. */
module Wrappers {

  datatype Option<+T> = None | Some(value: T)
}
