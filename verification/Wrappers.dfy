// Result types and a property of lists, shared by the modules.

module Wrappers {

  datatype Option<+T> = None | Some(value: T)

  // The outcome of an operation that the source either completes or leaves by throwing.
  datatype Result<+T, +E> = Ok(value: T) | Err(error: E)

  ghost predicate Distinct<T>(xs: seq<T>) {
    forall i, j | 0 <= i < j < |xs| :: xs[i] != xs[j]
  }
}
