/** Types and small facts shared by every module of the model. */
module Prelude {

  /** An unsigned octet, as stored in trace and span identifiers. */
  newtype byte = x: int | 0 <= x < 256

  datatype Option<+T> = None | Some(value: T)

  /** The same element never occurs at two positions. */
  predicate Distinct<T(==)>(xs: seq<T>) {
    forall i, j :: 0 <= i < j < |xs| ==> xs[i] != xs[j]
  }
}
