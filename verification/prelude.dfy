/** Vocabulary shared by every component. */
module Prelude {

  datatype Option<+T> = None | Some(value: T)

  /** Milliseconds since the epoch. */
  type Time = int

  type UserId = string

  function Max(a: int, b: int): int {
    if a < b then b else a
  }

  function Min(a: int, b: int): int {
    if a < b then a else b
  }

  predicate Distinct<T(==)>(xs: seq<T>) {
    forall i, j :: 0 <= i < j < |xs| ==> xs[i] != xs[j]
  }
}
