/**
 The values behind `struct json_object`: a tree, with the null pointer as JSON null.
 An object keeps its members in insertion order, which is what walking the
 linkhash list from head to tail shows (see LinkHash).
 */
module JsonValue {
  import opened Basics
  import opened OrderedMap

  const INT64_MAX := 0x7FFF_FFFF_FFFF_FFFF
  const INT64_MIN := -0x8000_0000_0000_0000
  const UINT64_MAX := 0xFFFF_FFFF_FFFF_FFFF

  type int64 = x: int | INT64_MIN <= x <= INT64_MAX
  type uint64 = x: int | 0 <= x <= UINT64_MAX

  /** A C string ends at its first NUL; a counted string (Str) may hold any character. */
  const NUL: char := '\0'

  /**
   The two integer representations are kept apart as in `cint_type`. A double is
   known only by the text it was parsed from (`json_object_new_double_s`).
   */
  datatype Json =
    | Null
    | Bool(b: bool)
    | Int(i: int64)
    | UInt(u: uint64)
    | Double(text: string)
    | Str(s: string)
    | Arr(elems: seq<Json>)
    | Obj(fields: seq<Pair<string, Json>>)

  type Field = Pair<string, Json>

  predicate NulFree(s: string) {
    NUL !in s
  }
}
