/** Datatypes and small sequence and set facts shared by every component model. */
module Prelude {

  type Byte = x: int | 0 <= x < 256

  type Bytes = seq<Byte>

  datatype Option<+T> = None | Some(value: T)

  datatype Result<+T, +E> = Ok(value: T) | Err(error: E)

  /** Subtraction on unsigned integers that stops at zero (Rust's `saturating_sub`). */
  function SaturatingSub(a: nat, b: nat): (r: nat)
    ensures a <= b + r && (r == 0 || a == b + r)
  {
    if a > b then a - b else 0
  }

  function Min(a: int, b: int): int {
    if a < b then a else b
  }

  function Max(a: int, b: int): int {
    if a < b then b else a
  }

  /** No element occurs twice. */
  ghost predicate NoDup<T(!new)>(s: seq<T>) {
    forall i, j :: 0 <= i < j < |s| ==> s[i] != s[j]
  }
}
