/** The optional value the Go code expresses as a `(value, err)` pair or a
    value that may be absent. */
module Wrappers {

  datatype Option<+T> = None | Some(value: T)
}
