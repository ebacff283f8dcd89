/** The optional value that stands for JavaScript's `undefined` alternative. */
module Wrappers {

  datatype Option<+T> = None | Some(value: T)
}
