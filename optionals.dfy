/** The optional values of the TypeScript source (`x?: T`, `T | undefined`). */
module Optionals {

  datatype Option<T> = None | Some(value: T)
}
