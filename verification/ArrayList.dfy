/**
 arraylist.c: a growable array of pointers, changed in place. NULL entries are `None`; the list's
 `free_fn` is shown by the order in which it takes what the list lets go of.
 */
module ArrayList {
  import opened Basics
  import opened OrderedMap

  const POINTER_SIZE := 8

  /** The entries `free_fn` gets to see: those that are not NULL, in order. */
  function Present<T>(elems: seq<Option<T>>): seq<T> {
    if elems == [] then []
    else Present(elems[..|elems| - 1]) + (if elems[|elems| - 1].Some? then [elems[|elems| - 1].value] else [])
  }

  /** How many entries a full list makes room for: twice as many, or as many as are needed. */
  function Enlarged(size: nat, max: nat): nat {
    if size >= SIZE_T_MAX / 2 || size * 2 < max then max else size * 2
  }

  /** There is room for `max` entries and one more, or it can be had. */
  predicate Expands(size: nat, max: nat, memory: bool) {
    max < size || (memory && Enlarged(size, max) <= SIZE_T_MAX / POINTER_SIZE)
  }

  class List<T> {
    var data: array<Option<T>>
    var length: nat
    var size: nat
    /** Everything `free_fn` was called on. */
    ghost var released: seq<T>

    ghost predicate Valid()
      reads this, data
    {
      data.Length == size && length <= size <= SIZE_T_MAX / POINTER_SIZE
    }

    ghost function Contents(): seq<Option<T>>
      reads this, data
      requires Valid()
    {
      data[..length]
    }

    constructor New(initialSize: nat)
      requires initialSize < SIZE_T_MAX / POINTER_SIZE
      ensures Valid() && fresh(data) && Contents() == [] && released == []
    {
      data := new Option<T>[initialSize](_ => None);
      size, length, released := initialSize, 0, [];
    }

    method Realloc(newSize: nat)
      requires Valid() && length <= newSize <= SIZE_T_MAX / POINTER_SIZE
      modifies this`data, this`size
      ensures Valid() && fresh(data) && size == newSize && Contents() == old(Contents())
    {
      var t := new Option<T>[newSize](_ => None);
      forall i | 0 <= i < length {
        t[i] := data[i];
      }
      data, size := t, newSize;
    }

    /** `array_list_expand_internal`. */
    method Expand(max: nat, memory: bool) returns (rc: int)
      requires Valid() && max <= SIZE_T_MAX
      modifies this`data, this`size
      ensures Valid() && (data == old(data) || fresh(data)) && Contents() == old(Contents())
      ensures rc == 0 || rc == -1
      ensures rc == 0 <==> Expands(old(size), max, memory)
      ensures rc == 0 ==> max <= size == if max < old(size) then old(size) else Enlarged(old(size), max)
      ensures rc == -1 ==> data == old(data) && size == old(size)
    {
      if max < size {
        return 0;
      }
      var newSize: nat;
      if size >= SIZE_T_MAX / 2 {
        newSize := max;
      } else {
        newSize := size * 2;
        if newSize < max {
          newSize := max;
        }
      }
      if newSize > SIZE_T_MAX / POINTER_SIZE {
        return -1;
      }
      if !memory {
        return -1;
      }
      Realloc(newSize);
      return 0;
    }

    /** `array_list_shrink`: the room changes, the contents do not. */
    method Shrink(emptySlots: nat, memory: bool) returns (rc: int)
      requires Valid()
      modifies this`data, this`size
      ensures Valid() && (data == old(data) || fresh(data)) && Contents() == old(Contents())
      ensures rc == 0 || rc == -1
      ensures rc == 0 ==> size >= length + emptySlots
      ensures rc == 0 && length + emptySlots <= old(size) ==>
                size == if length + emptySlots == 0 && old(size) != 0 then 1 else length + emptySlots
      ensures var wanted := length + emptySlots;
              rc == 0 <==> wanted < SIZE_T_MAX / POINTER_SIZE
                           && if wanted <= old(size) then wanted == old(size) ||
                               memory else Expands(old(size), wanted, memory)
    {
      if emptySlots >= SIZE_T_MAX / POINTER_SIZE - length {
        return -1;
      }
      var newSize := length + emptySlots;
      if newSize == size {
        return 0;
      }
      if newSize > size {
        rc := Expand(newSize, memory);
        return;
      }
      if newSize == 0 {
        newSize := 1;
      }
      if !memory {
        return -1;
      }
      Realloc(newSize);
      return 0;
    }

    /** `array_list_put_idx`: a value in the way is released, a gap is filled with NULLs. */
    method PutIdx(idx: nat, val: Option<T>, memory: bool) returns (rc: int)
      requires Valid() && idx <= SIZE_T_MAX
      modifies this, data
      ensures Valid() && (data == old(data) || fresh(data))
      ensures rc == if idx < SIZE_T_MAX && Expands(old(size), idx + 1, memory) then 0 else -1
      ensures rc == 0 ==> Contents() == PutAt(old(Contents()), idx, val, None)
      ensures rc == 0 ==> released == old(released) + if idx < old(length) then Present([old(Contents())[idx]]) else []
      ensures rc == -1 ==> Contents() == old(Contents()) && released == old(released)
    {
      if idx > SIZE_T_MAX - 1 {
        return -1;
      }
      hide PutAt;
      ghost var before := Contents();
      var r := Expand(idx + 1, memory);
      if r != 0 {
        return -1;
      }
      assert data[..length] == before;
      if idx < length {
        SliceOf(data[..], length, idx, idx + 1);
        assert before[idx..idx + 1] == [before[idx]];
        if data[idx].Some? {
          ReleaseRange(idx, idx + 1);
        }
      }
      Fill(idx, val);
      PutShape(before, Contents(), idx, val);
      return 0;
    }

    method Fill(idx: nat, val: Option<T>)
      requires length <= data.Length && idx < data.Length
      modifies this`length, data
      ensures length == if idx < old(length) then old(length) else idx + 1
      ensures data[idx] == val
      ensures forall i :: 0 <= i < length && i != idx ==> data[i] == if i < old(length) then old(data[i]) else None
    {
      data[idx] := val;
      if idx > length {
        forall i | length <= i < idx {
          data[i] := None;
        }
      }
      if length <= idx {
        length := idx + 1;
      }
    }

    /** `array_list_add`. */
    method Add(val: Option<T>, memory: bool) returns (rc: int)
      requires Valid()
      modifies this, data
      ensures Valid() && (data == old(data) || fresh(data)) && released == old(released)
      ensures rc == if Expands(old(size), old(length) + 1, memory) then 0 else -1
      ensures Contents() == if rc == 0 then old(Contents()) + [val] else old(Contents())
    {
      var idx := length;
      if idx > SIZE_T_MAX - 1 {
        return -1;
      }
      var r := Expand(idx + 1, memory);
      if r != 0 {
        return -1;
      }
      ghost var before := Contents();
      data[idx] := val;
      length := length + 1;
      assert data[..idx] == before;
      return 0;
    }

    /** `array_list_insert_idx`: the entries from there on move up. */
    method InsertIdx(idx: nat, val: Option<T>, memory: bool) returns (rc: int)
      requires Valid() && idx <= SIZE_T_MAX
      modifies this, data
      ensures Valid() && (data == old(data) || fresh(data)) && released == old(released)
      ensures var needed := if idx < old(length) then old(length) + 1 else idx + 1;
              rc == if idx < SIZE_T_MAX && Expands(old(size), needed, memory) then 0 else -1
      ensures rc == 0 ==> Contents() == if idx < old(length) then old(Contents())[..idx] + [val] +
          old(Contents())[idx..]
                                       else PutAt(old(Contents()), idx, val, None)
      ensures rc == -1 ==> Contents() == old(Contents())
    {
      if idx >= length {
        rc := PutIdx(idx, val, memory);
        return;
      }
      if length == SIZE_T_MAX {
        return -1;
      }
      var r := Expand(length + 1, memory);
      if r != 0 {
        return -1;
      }
      ghost var before := Contents();
      MoveUp(idx);
      data[idx] := val;
      length := length + 1;
      InsertedShape(before, Contents(), idx, val);
      return 0;
    }

    /** `array_list_del_idx`: the entries are released in order and the rest moves down. */
    method DelIdx(idx: nat, count: nat) returns (rc: int)
      requires Valid() && idx <= SIZE_T_MAX && count <= SIZE_T_MAX
      modifies this, data
      ensures Valid() && data == old(data)
      ensures rc == if idx < old(length) && idx + count <= old(length) then 0 else -1
      ensures rc == 0 ==> Contents() == old(Contents())[..idx] + old(Contents())[idx + count..]
      ensures rc == 0 ==> released == old(released) + Present(old(Contents())[idx..idx + count])
      ensures rc == -1 ==> Contents() == old(Contents()) && released == old(released)
    {
      hide Present;
      if idx > SIZE_T_MAX - count {
        return -1;
      }
      var stop := idx + count;
      if idx >= length || stop > length {
        return -1;
      }
      ghost var before := Contents();
      SliceOf(data[..], length, idx, stop);
      ReleaseRange(idx, stop);
      MoveDown(idx, count);
      length := length - count;
      DeletedShape(before, Contents(), idx, count);
      return 0;
    }

    method ReleaseRange(idx: nat, stop: nat)
      requires idx <= stop <= data.Length
      modifies this`released
      ensures released == old(released) + Present(old(data[idx..stop]))
    {
      assert data[idx..idx] == [];
      for i := idx to stop
        invariant released == old(released) + Present(data[idx..i])
      {
        assert data[idx..i + 1][..i - idx] == data[idx..i];
        if data[i].Some? {
          released := released + [data[i].value];
        }
      }
    }

    /** The two `memmove`s. */
    method MoveUp(idx: nat)
      requires idx <= length < data.Length
      modifies data
      ensures forall i :: 0 <= i < idx ==> data[i] == old(data[i])
      ensures forall i :: idx < i <= length ==> data[i] == old(data[i - 1])
    {
      forall i | idx <= i < length {
        data[i + 1] := data[i];
      }
    }

    method MoveDown(idx: nat, count: nat)
      requires idx + count <= length <= data.Length
      modifies data
      ensures forall i :: 0 <= i < idx ==> data[i] == old(data[i])
      ensures forall i :: idx <= i < length - count ==> data[i] == old(data[i + count])
    {
      forall i | idx <= i < length - count {
        data[i] := data[i + count];
      }
    }
  }

  lemma SliceOf<T>(s: seq<T>, len: nat, i: nat, j: nat)
    requires i <= j <= len <= |s|
    ensures s[..len][i..j] == s[i..j]
  {
  }

  lemma PutShape<T>(before: seq<Option<T>>, after: seq<Option<T>>, idx: nat, val: Option<T>)
    requires |after| == (if idx < |before| then |before| else idx + 1) && after[idx] == val
    requires forall i :: 0 <= i < |after| && i != idx ==> after[i] == if i < |before| then before[i] else None
    ensures after == PutAt(before, idx, val, None)
  {
  }

  lemma InsertedShape<T>(before: seq<T>, after: seq<T>, idx: nat, val: T)
    requires idx < |before| && |after| == |before| + 1 && after[idx] == val
    requires forall i :: 0 <= i < idx ==> after[i] == before[i]
    requires forall i :: idx < i < |after| ==> after[i] == before[i - 1]
    ensures after == before[..idx] + [val] + before[idx..]
  {
  }

  lemma DeletedShape<T>(before: seq<T>, after: seq<T>, idx: nat, count: nat)
    requires idx + count <= |before| && |after| == |before| - count
    requires forall i :: 0 <= i < idx ==> after[i] == before[i]
    requires forall i :: idx <= i < |after| ==> after[i] == before[i + count]
    ensures after == before[..idx] + before[idx + count..]
  {
  }
}
