/**
 Optional values, the sizes of C types, and what putting at an index does to a growing sequence.
 */
module Basics {
  datatype Option<+T> = None | Some(value: T)

  type byte = x: int | 0 <= x < 256

  const INT_MAX := 0x7FFF_FFFF
  const INT_MIN := -0x8000_0000
  const SIZE_T_MAX := 0xFFFF_FFFF_FFFF_FFFF

  function Copies<T>(n: nat, x: T): (s: seq<T>)
    ensures |s| == n && forall i :: 0 <= i < n ==> s[i] == x
  {
    if n == 0 then [] else [x] + Copies(n - 1, x)
  }

  /** Replace, or append after filling the gap. */
  function PutAt<T>(elems: seq<T>, idx: nat, val: T, gap: T): seq<T> {
    if idx < |elems| then elems[idx := val] else elems + Copies(idx - |elems|, gap) + [val]
  }
}
