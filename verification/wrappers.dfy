/** The optional value used where the crawler has `X | None`. */
module Wrappers {

  datatype Option<+T> = None | Some(value: T)
}
