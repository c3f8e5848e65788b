/** The result types shared by the model: an optional value, the result of an
    instruction that computes a new state, and the outcome of one that changes
    the state in place. */
module Wrappers {
  datatype Option<T> = None | Some(value: T)

  datatype Result<T, E> = Ok(value: T) | Err(error: E)

  datatype Outcome<E> = Pass | Fail(error: E)
}
