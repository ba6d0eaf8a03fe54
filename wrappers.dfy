/** Option: an absent JavaScript value (`undefined`) or a present one. */
module Wrappers {

  datatype Option<+T> = None | Some(value: T)
}
