/** The optional value used for "no key pressed" and "key not in the table". */
module Wrappers {

  datatype Option<+T> = None | Some(value: T)
}
