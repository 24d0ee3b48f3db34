/** The optional result used where `generate_invoice` raises `IndexError` on a missing part. */
module Wrappers {

  datatype Option<+T> = None | Some(value: T)

}
