/** The optional value used wherever the pages hold `null` or `undefined`. */
module Wrappers {
  datatype Option<+T> = None | Some(value: T)
}
