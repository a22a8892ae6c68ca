/** The optional value used wherever the PHP code returns a value or `null`. */
module Wrappers {

  datatype Option<+T> = None | Some(value: T)

}
