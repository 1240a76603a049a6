/** An optional value: a value that may be absent (Python's None, JavaScript's undefined). */
module Wrappers {

  datatype Option<+T> = None | Some(value: T)

}
