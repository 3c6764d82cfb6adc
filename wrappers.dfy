/** An optional value: the outcome of a computation that may produce
    nothing, such as an error calculation that throws or an answer that is
    not recognised. */
module Wrappers {
  datatype Option<T> = None | Some(value: T)
}
