/** The optional value used for JavaScript's `undefined` results and properties. */
module Wrappers {

  datatype Option<+T> = None | Some(value: T)
}
