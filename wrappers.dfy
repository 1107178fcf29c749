/** The optional value used wherever the scripts hold `null` or `undefined`. */
module Wrappers {

  datatype Option<+T> = None | Some(value: T)
}
