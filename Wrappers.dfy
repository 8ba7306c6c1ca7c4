/** An optional value: a JavaScript `null`-or-value field of the pages. */
module Wrappers {

  datatype Option<+T> = None | Some(value: T)
}
