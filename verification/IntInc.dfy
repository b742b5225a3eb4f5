/**
 Integers of json_object.c: one number in one of two 64-bit representations, changed in place by
 `json_object_int_inc` and read through getters that clamp to their own type.
 */
module IntInc {
  import opened Basics
  import opened JsonValue

  function Clamp(n: int, lo: int, hi: int): (c: int)
    requires lo <= hi
    ensures lo <= c <= hi && (lo <= n <= hi ==> c == n)
  {
    if n < lo then lo else if n > hi then hi else n
  }

  /** What one increment should leave: the exact sum as far as the two representations reach. */
  function Added(n: int, val: int): int {
    Clamp(n + val, INT64_MIN, UINT64_MAX)
  }

  /** The value after a whole run of increments. */
  function AddedAll(n: int, vals: seq<int>): int {
    if vals == [] then n else Added(AddedAll(n, vals[..|vals| - 1]), vals[|vals| - 1])
  }

  function Sum(vals: seq<int>): int {
    if vals == [] then 0 else Sum(vals[..|vals| - 1]) + vals[|vals| - 1]
  }

  ghost predicate NeverClamps(n: int, vals: seq<int>) {
    forall i :: 0 <= i <= |vals| ==> INT64_MIN <= n + Sum(vals[..i]) <= UINT64_MAX
  }

  /** A run whose partial sums all fit adds up exactly. */
  lemma {:induction false} UnclampedRunIsExact(n: int, vals: seq<int>)
    requires NeverClamps(n, vals)
    ensures AddedAll(n, vals) == n + Sum(vals)
  {
    if vals != [] {
      var front := vals[..|vals| - 1];
      forall i | 0 <= i <= |front|
        ensures INT64_MIN <= n + Sum(front[..i]) <= UINT64_MAX
      {
        assert front[..i] == vals[..i];
      }
      UnclampedRunIsExact(n, front);
      assert vals[..|vals|] == vals;
      assert INT64_MIN <= n + Sum(vals[..|vals|]) <= UINT64_MAX;
    }
  }

  /** A run that only goes up, or only goes down, stores its exact sum clamped once. */
  lemma {:induction false} OneWayRunClampsOnce(n: int, vals: seq<int>, up: bool)
    requires INT64_MIN <= n <= UINT64_MAX
    requires forall i :: 0 <= i < |vals| ==> if up then vals[i] >= 0 else vals[i] <= 0
    ensures if up then Sum(vals) >= 0 else Sum(vals) <= 0
    ensures AddedAll(n, vals) == Clamp(n + Sum(vals), INT64_MIN, UINT64_MAX)
  {
    if vals != [] {
      OneWayRunClampsOnce(n, vals[..|vals| - 1], up);
    }
  }

  class IntObject {
    /** `cint_type`: which member of the union `cint` is in use. */
    var isUnsigned: bool
    var cint: int

    ghost predicate Valid()
      reads this
    {
      if isUnsigned then 0 <= cint <= UINT64_MAX else INT64_MIN <= cint <= INT64_MAX
    }

    constructor NewInt64(i: int64)
      ensures Valid() && cint == i && !isUnsigned
    {
      cint, isUnsigned := i, false;
    }

    constructor NewUInt64(i: uint64)
      ensures Valid() && cint == i && isUnsigned
    {
      cint, isUnsigned := i, true;
    }

    /** `json_object_get_int64`. */
    function GetInt64(): (r: int64)
      requires Valid()
      reads this
      ensures r == Clamp(cint, INT64_MIN, INT64_MAX)
    {
      if !isUnsigned then cint
      else if cint >= INT64_MAX then INT64_MAX
      else cint
    }

    /** `json_object_get_uint64`. */
    function GetUInt64(): (r: uint64)
      requires Valid()
      reads this
      ensures r == Clamp(cint, 0, UINT64_MAX)
    {
      if isUnsigned then cint else if cint < 0 then 0 else cint
    }

    /** `json_object_get_int`. */
    function GetInt(): (r: int)
      requires Valid()
      reads this
      ensures r == Clamp(cint, INT_MIN, INT_MAX)
    {
      var cint64 := GetInt64();
      if cint64 <= INT_MIN then INT_MIN
      else if cint64 >= INT_MAX then INT_MAX
      else cint64
    }

    /**
     `json_object_int_inc`. C leaves `-val` undefined for INT64_MIN, and only the unsigned
     representation negates `val`.
     */
    method Inc(val: int64)
      requires Valid() && (isUnsigned ==> val != INT64_MIN)
      modifies this
      ensures Valid() && cint == Added(old(cint), val)
      ensures isUnsigned == if old(isUnsigned) then cint >= 0 else cint > INT64_MAX
    {
      if !isUnsigned {
        if val > 0 && cint > INT64_MAX - val {
          cint := ToUInt64(ToUInt64(cint) + ToUInt64(val));
          isUnsigned := true;
        } else if val < 0 && cint < INT64_MIN - val {
          cint := INT64_MIN;
        } else {
          cint := cint + val;
        }
      } else {
        if val > 0 && cint > UINT64_MAX - ToUInt64(val) {
          cint := UINT64_MAX;
        } else if val < 0 && cint < ToUInt64(-val) {
          cint := ToInt64(cint) + val;
          isUnsigned := false;
        } else if val < 0 && cint >= ToUInt64(-val) {
          cint := cint - ToUInt64(-val);
        } else {
          cint := ToUInt64(cint + val);
        }
      }
    }

    /** A whole run of increments. */
    method IncAll(vals: seq<int64>)
      requires Valid() && forall i :: 0 <= i < |vals| ==> vals[i] != INT64_MIN
      modifies this
      ensures Valid() && cint == AddedAll(old(cint), vals)
    {
      var i := 0;
      assert vals[..0] == [];
      while i < |vals|
        invariant 0 <= i <= |vals| && Valid() && cint == AddedAll(old(cint), vals[..i])
      {
        Inc(vals[i]);
        assert vals[..i + 1][..i] == vals[..i];
        i := i + 1;
      }
      assert vals[..i] == vals;
    }
  }

  /** The casts between the two 64-bit types. */
  function ToUInt64(n: int): (r: int)
    ensures 0 <= r <= UINT64_MAX && (0 <= n <= UINT64_MAX ==> r == n)
  {
    n % 0x1_0000_0000_0000_0000
  }

  function ToInt64(n: int): (r: int)
    ensures INT64_MIN <= r <= INT64_MAX && (INT64_MIN <= n <= INT64_MAX ==> r == n)
  {
    (n + 0x8000_0000_0000_0000) % 0x1_0000_0000_0000_0000 - 0x8000_0000_0000_0000
  }
}
