/** The optional value used for JavaScript's `undefined` results (a failed `find`). */
module Wrappers {
  datatype Option<+T> = None | Some(value: T)
}
