/**
 Reference counting in json_object.c. A caller's handle and a container's slot each own one count;
 adding to a container hands the caller's count over. `json_object_put` lets go of one count and
 tears an object down when it was the last, which lets go of the object's members in turn.
 */
module RefCount {
  import opened Basics
  import opened OrderedMap
  import opened JsonValue
  import opened RefGraph

  const UINT32_MAX := 0xFFFF_FFFF

  /** No cell is freed twice, and a cell is gone exactly when it was freed. */
  ghost predicate FreedOnce(cells: seq<Cell>, freed: seq<Ref>) {
    && (forall i, j :: 0 <= i < j < |freed| ==> freed[i] != freed[j])
    && (forall r: Ref :: r in freed <==> r < |cells| && cells[r] == Gone)
  }

  /** Of the objects there were, exactly those that no remaining handle reaches are gone. */
  ghost predicate FreesUnreached(before: seq<Cell>, after: seq<Cell>, handles: multiset<Ref>) {
    && |before| == |after|
    && forall r: Ref :: r < |before| && before[r].Node? ==> (after[r] == Gone <==> !Reached(before, handles, r))
  }

  /** Only cells that one of the slots leads to are touched. */
  ghost predicate Touches(before: seq<Cell>, after: seq<Cell>, slots: seq<Option<Ref>>) {
    && |before| == |after|
    && forall x: Ref :: x < |before| && (forall i :: 0 <= i < |slots| && slots[i].Some? ==>
        !Reaches(before, slots[i].value, x))
         ==> after[x] == before[x]
  }

  /**
   What a container operation leaves: the container `o` with its new members, and of everything else
   exactly what is still reached.
   */
  ghost predicate Settled(before: seq<Cell>, after: seq<Cell>, handles: multiset<Ref>, o: Ref, body: Body) {
    && |before| == |after| && o < |before| && before[o].Node?
    && after[o] == Node(before[o].rc, body)
    && Shrunk(before[o := after[o]], after)
    && FreesUnreached(before[o := after[o]], after, handles)
  }

  class Store {
    var cells: seq<Cell>
    ghost var handles: multiset<Ref>
    /** Why there are no cycles. */
    ghost var rank: Ref -> nat
    /** Every cell whose memory was freed, in order. */
    ghost var freed: seq<Ref>

    ghost predicate Valid()
      reads this
    {
      Conserved(cells, handles) && Ranked(cells, rank) && FreedOnce(cells, freed)
    }

    constructor ()
      ensures Valid() && cells == [] && handles == multiset{}
    {
      cells, handles, rank, freed := [], multiset{}, x => 0, [];
      new;
      forall r: Ref
        ensures In(cells, r) + handles[r] == Rc(cells, r)
      {
      }
    }

    predicate IsNode(r: Ref)
      reads this
    {
      r < |cells| && cells[r].Node?
    }

    /** The `json_object_new_*` functions: one count, owned by the caller. */
    method New(body: Body) returns (r: Ref)
      requires Valid() && Slots(Node(1, body)) == []
      modifies this
      ensures Valid() && r == |old(cells)| && cells == old(cells) + [Node(1, body)]
      ensures handles == old(handles) + multiset{r}
    {
      hide Conserved, Kids, Slots;
      r := |cells|;
      Allocated(cells, handles, Node(1, body));
      forall x: Ref | x < |cells| + 1
        ensures x < |cells| ==> (cells + [Node(1, body)])[x] == cells[x]
      {
      }
      cells, handles := cells + [Node(1, body)], handles + multiset{r};
    }

    /** `json_object_get`. */
    method Get(r: Option<Ref>) returns (same: Option<Ref>)
      requires Valid() && (r.Some? ==> IsNode(r.value) && cells[r.value].rc < UINT32_MAX)
      modifies this`cells, this`handles
      ensures Valid() && same == r
      ensures r.None? ==> cells == old(cells) && handles == old(handles)
      ensures r.Some? ==> handles == old(handles) + multiset{r.value}
                          && cells == old(cells)[r.value := Node(old(cells)[r.value].rc + 1, old(cells)[r.value].body)]
    {
      hide Conserved, Kids, Slots;
      same := r;
      if r.Some? {
        ghost var before := cells;
        Shared(cells, handles, r.value);
        cells := cells[r.value := Node(cells[r.value].rc + 1, cells[r.value].body)];
        handles := handles + multiset{r.value};
        SameSlotsSameRank(before, cells, rank);
      }
    }

    /**
     `json_object_put`: exactly the objects that the remaining handles no longer reach are freed, and
     nothing above the object in the graph is touched.
     */
    method Put(r: Option<Ref>) returns (last: bool)
      requires Valid() && (r.Some? ==> handles[r.value] > 0)
      modifies this`cells, this`handles, this`freed
      ensures Valid() && handles == old(handles) - One(r)
      ensures |cells| == |old(cells)| && Shrunk(old(cells), cells) && Total(cells) <= Total(old(cells))
      ensures r.None? ==> cells == old(cells)
      ensures r.Some? ==> forall x: Ref :: x < |cells| && x != r.value && rank(x) >= rank(r.value) ==>
          cells[x] == old(cells)[x]
      ensures FreesUnreached(old(cells), cells, handles)
      ensures Touches(old(cells), cells, [r])
      ensures last <==> r.Some? && old(IsNode(r.value)) && old(cells)[r.value].rc == 1
      decreases Total(cells), 1
    {
      hide Conserved, Ranked, Kids, Slots, Reached, Total, FreedOnce, Shrunk, FreesUnreached, Touches;
      ghost var before := cells;
      if r.None? {
        ShrunkSame(before);
        TouchesNone(before, [r]);
        Exact(before);
        return false;
      }
      var o := r.value;
      HeldIsNode(cells, handles, o);
      var c := cells[o];
      if c.rc - 1 > 0 {
        LetGo(cells, handles, o);
        cells := cells[o := Node(c.rc - 1, c.body)];
        handles := handles - multiset{o};
        StillThere(before, freed, o, c.rc - 1);
        TouchesOne(before, o, Node(c.rc - 1, c.body));
        ShrunkKeepsRank(before, cells, rank);
        Exact(before);
        return false;
      }
      TearDown(o);
      ShrunkKeepsRank(before, cells, rank);
      Exact(before);
      return true;
    }

    /** The last hold on an object is let go of: its members go, and then the object itself. */
    method TearDown(o: Ref)
      requires Valid() && handles[o] > 0 && IsNode(o) && cells[o].rc == 1
      modifies this`cells, this`handles, this`freed
      ensures Valid() && handles == old(handles) - multiset{o}
      ensures |cells| == |old(cells)| && Shrunk(old(cells), cells) && Total(cells) <= Total(old(cells))
      ensures forall x: Ref :: x < |cells| && x != o && rank(x) >= rank(o) ==> cells[x] == old(cells)[x]
      ensures Touches(old(cells), cells, [Some(o)])
      decreases Total(cells), 0
    {
      hide Conserved, Ranked, Kids, Slots, Reached, Total, FreedOnce, Shrunk, FreesUnreached, Touches;
      ghost var before := cells;
      LastLetGo(cells, handles, o);
      DyingRanked(before, o, rank);
      StillDying(before, freed, o);
      var slots := Slots(cells[o]);
      cells := cells[o := Dying];
      handles := handles - multiset{o} + Kids(slots);
      ReleaseAll(slots, o);
      Buried(cells, handles, o);
      NowGone(before, cells, freed, o);
      TouchesTree(before, cells, o);
      cells := cells[o := Gone];
      freed := freed + [o];
      ShrunkKeepsRank(before, cells, rank);
    }

    /** The members of an object that is being torn down are let go of one by one. */
    method ReleaseAll(slots: seq<Option<Ref>>, o: Ref)
      requires Valid() && o < |cells| && cells[o] == Dying
      requires Kids(slots) <= handles
      requires forall i :: 0 <= i < |slots| && slots[i].Some? ==> rank(slots[i].value) < rank(o)
      modifies this`cells, this`handles, this`freed
      ensures Valid() && handles == old(handles) - Kids(slots)
      ensures |cells| == |old(cells)| && Shrunk(old(cells), cells) && Total(cells) <= Total(old(cells))
      ensures forall x: Ref :: x < |cells| && rank(x) >= rank(o) ==> cells[x] == old(cells)[x]
      ensures Touches(old(cells), cells, slots)
      decreases Total(cells), 2
    {
      hide Conserved, Ranked, Slots, FreesUnreached, Total, Kids, One, FreedOnce, Shrunk, Touches;
      ghost var before, outer := cells, handles - Kids(slots);
      var i := 0;
      ShrunkSame(before);
      TouchesNone(before, slots);
      assert slots[0..] == slots;
      while i < |slots|
        invariant 0 <= i <= |slots| && Valid() && handles == outer + Kids(slots[i..])
        invariant |cells| == |before| && Shrunk(before, cells) && Total(cells) <= Total(before)
        invariant Touches(before, cells, slots)
        invariant forall x: Ref :: x < |cells| && rank(x) >= rank(o) ==> cells[x] == before[x]
      {
        KidsSplit(slots, i);
        ghost var mid := cells;
        HoldsOne(handles, outer, slots[i], Kids(slots[i + 1..]));
        var _ := Put(slots[i]);
        TouchesMore(before, mid, cells, slots, i);
        ShrunkTrans(before, mid, cells);
        i := i + 1;
      }
      assert slots[i..] == [];
      NoKids();
    }

    lemma Exact(before: seq<Cell>)
      requires |before| == |cells| && Shrunk(before, cells) && Conserved(cells, handles) && Ranked(before, rank)
      ensures FreesUnreached(before, cells, handles)
    {
      hide Conserved, Ranked, Slots, Reached;
      forall x: Ref | x < |cells| && before[x].Node?
        ensures cells[x] == Gone <==> !Reached(before, handles, x)
      {
        SurvivorsExactly(before, cells, handles, rank, x);
      }
    }

    // ---------------------------------------------------------- containers

    /** A slot is emptied and the member it named let go of; the container itself stays. */
    method ReleaseSlot(o: Ref, i: nat)
      requires Valid() && IsNode(o) && i < |Slots(cells[o])|
      modifies this`cells, this`handles, this`freed
      ensures Valid() && handles == old(handles) && |cells| == |old(cells)| && IsNode(o)
      ensures cells[o] == Node(old(cells)[o].rc, WithSlot(old(cells)[o].body, i, None))
      ensures Shrunk(old(cells)[o := cells[o]], cells)
    {
      hide Conserved, Ranked, Kids, Members, FreedOnce, Shrunk, FreesUnreached, WithSlot;
      var c := cells[o];
      var s := Slots(c)[i];
      var body := WithSlot(c.body, i, None);
      WithSlotSlots(c, i, None);
      KidsUpdate(Slots(c), i, None);
      assert handles + One(s) + Kids(Slots(c)[i := None]) == handles + (Kids(Slots(c)[i := None]) + One(s));
      Rebodied(cells, handles, o, body, handles + One(s));
      Rebodying(cells, rank, freed, o, body, None);
      cells := cells[o := Node(c.rc, body)];
      handles := handles + One(s);
      SlotRank(old(cells), rank, o, i);
      var _ := Put(s);
    }

    /** The caller's count on `val` goes into a slot of `o`. */
    method StoreBody(o: Ref, body: Body, val: Option<Ref>)
      requires Valid() && IsNode(o) && One(val) <= handles
      requires val.Some? ==> rank(val.value) < rank(o)
      requires Kids(Members(body)) == Kids(Slots(cells[o])) + One(val)
      modifies this`cells, this`handles
      ensures Valid() && handles == old(handles) - One(val)
      ensures cells == old(cells)[o := Node(old(cells)[o].rc, body)]
    {
      hide Conserved, Ranked, Kids, Members, FreedOnce, One;
      Rebodied(cells, handles, o, body, handles - One(val));
      SlotsFrom(Members(body), Slots(cells[o]), val);
      Rebodying(cells, rank, freed, o, body, val);
      cells := cells[o := Node(cells[o].rc, body)];
      handles := handles - One(val);
    }

    /** A new slot of `o` for `val` closes no cycle. */
    ghost method RaiseRank(o: Ref, val: Option<Ref>)
      requires Valid() && (val.Some? ==> !Reaches(cells, val.value, o))
      modifies this`rank
      ensures Valid() && (val.Some? ==> rank(val.value) < rank(o))
    {
      hide Conserved, Ranked, Slots, FreedOnce, Reaches;
      if val.Some? {
        RaisedRanks(cells, cells, rank, o, val.value);
        RaisedAbove(cells, rank, o, val.value);
        rank := Raised(cells, rank, o, val.value);
      }
    }

    /** `json_object_array_add`. */
    method ArrayAdd(a: Ref, val: Option<Ref>, memory: bool) returns (rc: int)
      requires Valid() && IsNode(a) && cells[a].body.Array?
      requires One(val) <= handles && (val.Some? ==> !Reaches(cells, val.value, a))
      modifies this
      ensures Valid() && rc == if memory then 0 else -1
      ensures rc != 0 ==> cells == old(cells) && handles == old(handles)
      ensures rc == 0 ==> cells == old(cells)[a := Node(old(cells)[a].rc, Array(old(cells)[a].body.elems + [val]))]
      ensures rc == 0 ==> handles == old(handles) - One(val)
    {
      hide Conserved, Ranked, Kids, FreedOnce, Reaches, One;
      if !memory {
        return -1;
      }
      RaiseRank(a, val);
      KidsAppend(cells[a].body.elems, [val]);
      KidsOne(val);
      StoreBody(a, Array(cells[a].body.elems + [val]), val);
      return 0;
    }

    /** `json_object_array_put_idx`. */
    method ArrayPutIdx(a: Ref, idx: nat, val: Option<Ref>, memory: bool) returns (rc: int)
      requires Valid() && IsNode(a) && cells[a].body.Array?
      requires One(val) <= handles && (val.Some? ==> !Reaches(cells, val.value, a))
      modifies this
      ensures Valid() && rc == if memory then 0 else -1
      ensures rc != 0 ==> cells == old(cells) && handles == old(handles)
      ensures rc == 0 ==> handles == old(handles) - One(val)
      ensures rc == 0 ==> Settled(old(cells), cells, handles, a, Array(PutAt(old(cells)[a].body.elems, idx, val, None)))
    {
      hide Conserved, Ranked, Kids, FreedOnce, Reaches, One, Shrunk, FreesUnreached, PutAt;
      if !memory {
        return -1;
      }
      ghost var before := cells;
      RaiseRank(a, val);
      var elems := cells[a].body.elems;
      if idx < |elems| && elems[idx].Some? {
        ReleaseSlot(a, idx);
      } else {
        KeepSlots(before, a);
      }
      ghost var mid := cells;
      PutAtKids(mid[a].body.elems, idx, val);
      PutAtAgain(elems, mid[a].body.elems, idx, val);
      StoreBody(a, Array(PutAt(elems, idx, val, None)), val);
      PutAtFrom(elems, idx, val);
      Settles(before, mid, cells, handles, rank, a, Array(PutAt(elems, idx, val, None)), val);
      return 0;
    }

    /** `json_object_array_insert_idx`. */
    method ArrayInsertIdx(a: Ref, idx: nat, val: Option<Ref>, memory: bool) returns (rc: int)
      requires Valid() && IsNode(a) && cells[a].body.Array?
      requires One(val) <= handles && (val.Some? ==> !Reaches(cells, val.value, a))
      modifies this
      ensures Valid() && rc == if memory then 0 else -1
      ensures rc != 0 ==> cells == old(cells) && handles == old(handles)
      ensures rc == 0 ==> handles == old(handles) - One(val)
      ensures rc == 0 ==> var elems := old(cells)[a].body.elems;
                Settled(old(cells), cells, handles, a,
                  Array(if idx < |elems| then elems[..idx] + [val] + elems[idx..] else PutAt(elems, idx, val, None)))
    {
      hide Conserved, Ranked, Kids, FreedOnce, Reaches, One, Shrunk, FreesUnreached, PutAt;
      var elems := cells[a].body.elems;
      if idx >= |elems| {
        rc := ArrayPutIdx(a, idx, val, memory);
        return;
      }
      if !memory {
        return -1;
      }
      ghost var before := cells;
      RaiseRank(a, val);
      KeepSlots(before, a);
      var elems' := elems[..idx] + [val] + elems[idx..];
      InsertedKids(elems, idx, val);
      StoreBody(a, Array(elems'), val);
      Settles(before, before, cells, handles, rank, a, Array(elems'), val);
      return 0;
    }

    /** `json_object_array_del_idx`. */
    method ArrayDelIdx(a: Ref, idx: nat, count: nat) returns (rc: int)
      requires Valid() && IsNode(a) && cells[a].body.Array?
      modifies this
      ensures Valid() && handles == old(handles)
      ensures rc == if idx >= |old(cells)[a].body.elems| || idx + count > |old(cells)[a].body.elems| then -1 else 0
      ensures rc != 0 ==> cells == old(cells)
      ensures rc == 0 ==> var elems := old(cells)[a].body.elems;
                Settled(old(cells), cells, handles, a, Array(elems[..idx] + elems[idx + count..]))
    {
      hide Conserved, Ranked, Kids, FreedOnce, Shrunk, FreesUnreached;
      var elems := cells[a].body.elems;
      var stop := idx + count;
      if idx >= |elems| || stop > |elems| {
        return -1;
      }
      ghost var before := cells;
      KeepSlots(before, a);
      var i := idx;
      while i < stop
        invariant idx <= i <= stop && Valid() && handles == old(handles) && |cells| == |before| && IsNode(a)
        invariant cells[a].rc == before[a].rc && cells[a].body.Array? && Emptied(elems, cells[a].body.elems, idx, i)
        invariant rank == old(rank) && Shrunk(before[a := cells[a]], cells)
      {
        ghost var mid := cells;
        if elems[i].Some? {
          ReleaseSlot(a, i);
          ShrunkRebody(before, mid, a, cells[a]);
          ShrunkTrans(before[a := cells[a]], mid[a := cells[a]], cells);
        }
        i := i + 1;
      }
      ghost var mid := cells;
      var elems' := elems[..idx] + elems[stop..];
      DeletedKids(elems, mid[a].body.elems, idx, stop);
      StoreBody(a, Array(elems'), None);
      Settles(before, mid, cells, handles, rank, a, Array(elems'), None);
      return 0;
    }

    /** `json_object_object_add_ex`: a value under a known key is let go of and replaced in place. */
    method ObjectAdd(o: Ref, key: string, val: Option<Ref>, memory: bool) returns (rc: int)
      requires Valid() && IsNode(o) && cells[o].body.Object? && One(val) <= handles
      requires val.Some? && val != Some(o) ==> !Reaches(cells, val.value, o)
      modifies this
      ensures Valid()
      ensures rc == if val != Some(o) && (memory || Has(old(cells)[o].body.fields, key)) then 0 else -1
      ensures rc != 0 ==> cells == old(cells) && handles == old(handles)
      ensures rc == 0 ==> handles == old(handles) - One(val)
      ensures rc == 0 ==> Settled(old(cells), cells, handles, o, Object(OrderedMap.Put(old(cells)[o].body.fields,
          key, val)))
      ensures rc == 0 && !Has(old(cells)[o].body.fields, key) ==>
                cells == old(cells)[o := Node(old(cells)[o].rc, Object(old(cells)[o].body.fields + [Pair(key, val)]))]
    {
      hide Conserved, Ranked, Kids, FreedOnce, Reaches, One, Shrunk, FreesUnreached, Values, Settled;
      var fields := cells[o].body.fields;
      var i := Find(fields, key);
      if val == Some(o) {
        return -1;
      }
      ghost var before := cells;
      if i == |fields| && !memory {
        return -1;
      }
      RaiseRank(o, val);
      KeepSlots(before, o);
      var fields' := if i == |fields| then fields + [Pair(key, val)] else fields[i := Pair(key, val)];
      if i < |fields| && fields[i].val.Some? {
        ReleaseSlot(o, i);
      }
      ghost var mid := cells;
      FieldStored(fields, mid[o].body.fields, fields', i, key, val);
      StoreBody(o, Object(fields'), val);
      Settles(before, mid, cells, handles, rank, o, Object(fields'), val);
      return 0;
    }

    /** `json_object_object_del`. */
    method ObjectDel(o: Ref, key: string)
      requires Valid() && IsNode(o) && cells[o].body.Object?
      modifies this
      ensures Valid() && handles == old(handles)
      ensures Settled(old(cells), cells, handles, o, Object(Remove(old(cells)[o].body.fields, key)))
    {
      hide Conserved, Ranked, Kids, FreedOnce, Shrunk, FreesUnreached, Values;
      var fields := cells[o].body.fields;
      var i := Find(fields, key);
      ghost var before := cells;
      KeepSlots(before, o);
      if i == |fields| {
        Settles(before, before, cells, handles, rank, o, Object(fields), None);
        return;
      }
      var fields' := fields[..i] + fields[i + 1..];
      if fields[i].val.Some? {
        ReleaseSlot(o, i);
      }
      ghost var mid := cells;
      FieldRemoved(fields, mid[o].body.fields, fields', i);
      StoreBody(o, Object(fields'), None);
      Settles(before, mid, cells, handles, rank, o, Object(fields'), None);
    }
  }

  // ------------------------------------------------------------ lemmas for the container operations

  lemma KeepSlots(cells: seq<Cell>, o: Ref)
    requires o < |cells|
    ensures cells[o := cells[o]] == cells && Shrunk(cells, cells)
    ensures forall val :: From(Slots(cells[o]), Slots(cells[o]), val)
  {
  }

  lemma ShrunkRebody(before: seq<Cell>, mid: seq<Cell>, o: Ref, c: Cell)
    requires o < |before| && |mid| == |before| && Shrunk(before[o := mid[o]], mid)
    ensures Shrunk(before[o := c], mid[o := c])
  {
  }

  /** A release followed by a store leaves the container settled. */
  lemma Settles(before: seq<Cell>, mid: seq<Cell>, after: seq<Cell>, handles: multiset<Ref>, rank: Ref -> nat,
                o: Ref, body: Body, val: Option<Ref>)
    requires Ranked(before, rank) && Conserved(after, handles) && (val.Some? ==> rank(val.value) < rank(o))
    requires o < |before| == |mid| && before[o].Node? && mid[o].Node? && mid[o].rc == before[o].rc
    requires Shrunk(before[o := mid[o]], mid) && after == mid[o := Node(mid[o].rc, body)]
    requires From(Members(body), Slots(before[o]), val)
    ensures Settled(before, after, handles, o, body)
  {
    hide Conserved, Ranked, Members, Reached;
    var c := Node(before[o].rc, body);
    ShrunkRebody(before, mid, o, c);
    RebodiedRank(before, rank, o, body, val);
    forall r: Ref | r < |before| && before[o := c][r].Node?
      ensures after[r] == Gone <==> !Reached(before[o := c], handles, r)
    {
      SurvivorsExactly(before[o := c], after, handles, rank, r);
    }
  }

  lemma PutAtKids(elems: seq<Option<Ref>>, idx: nat, val: Option<Ref>)
    requires idx < |elems| ==> elems[idx] == None
    ensures Kids(PutAt(elems, idx, val, None)) == Kids(elems) + One(val)
  {
    hide Kids;
    if idx < |elems| {
      KidsUpdate(elems, idx, val);
    } else {
      var gap := Copies(idx - |elems|, None);
      KidsAppend(elems + gap, [val]);
      KidsAppend(elems, gap);
      KidsOne(val);
      NullKids(gap);
    }
  }

  lemma PutAtAgain(elems: seq<Option<Ref>>, elems': seq<Option<Ref>>, idx: nat, val: Option<Ref>)
    requires elems' == elems || (idx < |elems| && elems' == elems[idx := None])
    ensures PutAt(elems', idx, val, None) == PutAt(elems, idx, val, None)
  {
  }

  lemma PutAtFrom(elems: seq<Option<Ref>>, idx: nat, val: Option<Ref>)
    ensures From(PutAt(elems, idx, val, None), elems, val)
  {
    var t := PutAt(elems, idx, val, None);
    forall i | 0 <= i < |t| && t[i].Some?
      ensures t[i] in elems || t[i] == val
    {
      if i < |elems| && i != idx {
        assert t[i] == elems[i];
      }
    }
  }

  lemma {:induction false} NullKids(slots: seq<Option<Ref>>)
    requires forall i :: 0 <= i < |slots| ==> slots[i] == None
    ensures Kids(slots) == multiset{}
  {
    if slots != [] {
      NullKids(slots[1..]);
    }
  }

  lemma InsertedKids(elems: seq<Option<Ref>>, idx: nat, val: Option<Ref>)
    requires idx < |elems|
    ensures var t := elems[..idx] + [val] + elems[idx..];
            Kids(t) == Kids(elems) + One(val) && From(t, elems, val)
  {
    hide Kids;
    KidsAppend(elems[..idx] + [val], elems[idx..]);
    KidsAppend(elems[..idx], [val]);
    KidsAppend(elems[..idx], elems[idx..]);
    KidsOne(val);
    assert elems == elems[..idx] + elems[idx..];
  }

  /** The slots from `idx` up to `i` hold nothing any more, the others what they held. */
  ghost predicate Emptied(elems: seq<Option<Ref>>, now: seq<Option<Ref>>, idx: nat, i: nat) {
    && |now| == |elems|
    && (forall j :: 0 <= j < |elems| ==> now[j] == if idx <= j < i then None else elems[j])
  }

  lemma DeletedKids(elems: seq<Option<Ref>>, now: seq<Option<Ref>>, idx: nat, stop: nat)
    requires idx <= stop <= |elems| && Emptied(elems, now, idx, stop)
    ensures var t := elems[..idx] + elems[stop..];
            Kids(t) == Kids(now) + One(None) && From(t, elems, None)
  {
    hide Kids;
    assert elems[..idx] == now[..idx] && elems[stop..] == now[stop..];
    assert now == now[..idx] + (now[idx..stop] + now[stop..]);
    KidsAppend(now[..idx], now[idx..stop] + now[stop..]);
    KidsAppend(now[idx..stop], now[stop..]);
    KidsAppend(now[..idx], now[stop..]);
    NullKids(now[idx..stop]);
  }

  lemma FieldStored(fields: seq<Pair<string, Option<Ref>>>, now: seq<Pair<string, Option<Ref>>>,
                    fields': seq<Pair<string, Option<Ref>>>, i: nat, key: string, val: Option<Ref>)
    requires i <= |fields|
    requires i < |fields| && fields[i].val.Some? ==> now == fields[i := Pair(fields[i].key, None)]
    requires i == |fields| || fields[i].val.None? ==> now == fields
    requires fields' == if i == |fields| then fields + [Pair(key, val)] else fields[i := Pair(key, val)]
    ensures Kids(Values(fields')) == Kids(Values(now)) + One(val)
    ensures From(Values(fields'), Values(fields), val)
  {
    hide Kids, Values;
    if i == |fields| {
      assert Values(fields') == Values(fields) + [val];
      KidsAppend(Values(fields), [val]);
      KidsOne(val);
    } else {
      assert Values(fields') == Values(now)[i := val];
      KidsUpdate(Values(now), i, val);
      forall j | 0 <= j < |fields'| && j != i
        ensures Values(fields')[j] in Values(fields)
      {
        assert Values(fields')[j] == Values(fields)[j];
      }
    }
  }

  lemma FieldRemoved(fields: seq<Pair<string, Option<Ref>>>, now: seq<Pair<string, Option<Ref>>>,
                     fields': seq<Pair<string, Option<Ref>>>, i: nat)
    requires i < |fields| && fields' == fields[..i] + fields[i + 1..]
    requires now == if fields[i].val.Some? then fields[i := Pair(fields[i].key, None)] else fields
    ensures Kids(Values(fields')) == Kids(Values(now)) + One(None)
    ensures From(Values(fields'), Values(fields), None)
  {
    hide Kids, Values;
    assert Values(fields') == Values(now)[..i] + Values(now)[i + 1..];
    KidsSplit(Values(now), i);
    KidsAppend(Values(now)[..i], Values(now)[i + 1..]);
    forall j | 0 <= j < |fields'|
      ensures Values(fields')[j] in Values(fields)
    {
      assert Values(fields')[j] == Values(fields)[if j < i then j else j + 1];
    }
  }

  /** A container's body with one slot changed. */
  function WithSlot(b: Body, i: nat, s: Option<Ref>): Body
    requires i < |Members(b)|
  {
    match b
    case Scalar(_) => b
    case Array(elems) => Array(elems[i := s])
    case Object(fields) => Object(fields[i := Pair(fields[i].key, s)])
  }

  lemma WithSlotSlots(c: Cell, i: nat, s: Option<Ref>)
    requires c.Node? && i < |Slots(c)|
    ensures Slots(Node(c.rc, WithSlot(c.body, i, s))) == Slots(c)[i := s]
  {
  }

  lemma SlotRank(cells: seq<Cell>, rank: Ref -> nat, o: Ref, i: nat)
    requires Ranked(cells, rank) && o < |cells| && i < |Slots(cells[o])|
    ensures Slots(cells[o])[i].Some? ==> rank(Slots(cells[o])[i].value) < rank(o)
  {
  }

  /** New slots that were there before or name `val`. */
  ghost predicate From(after: seq<Option<Ref>>, before: seq<Option<Ref>>, val: Option<Ref>) {
    forall i :: 0 <= i < |after| && after[i].Some? ==> after[i] in before || after[i] == val
  }

  lemma SlotsFrom(after: seq<Option<Ref>>, before: seq<Option<Ref>>, val: Option<Ref>)
    requires Kids(after) == Kids(before) + One(val)
    ensures From(after, before, val)
  {
    hide Kids;
    forall i | 0 <= i < |after| && after[i].Some?
      ensures after[i] in before || after[i] == val
    {
      KidsHas(after, after[i].value);
      KidsHas(before, after[i].value);
      assert Kids(after)[after[i].value] == Kids(before)[after[i].value] + One(val)[after[i].value];
    }
  }

  lemma RebodiedRank(cells: seq<Cell>, rank: Ref -> nat, o: Ref, body: Body, val: Option<Ref>)
    requires Ranked(cells, rank) && o < |cells| && From(Members(body), Slots(cells[o]), val)
    requires val.Some? ==> rank(val.value) < rank(o)
    ensures forall rc: nat :: Ranked(cells[o := Node(rc, body)], rank)
  {
    hide Members;
    forall rc: nat
      ensures Ranked(cells[o := Node(rc, body)], rank)
    {
      var after := cells[o := Node(rc, body)];
      forall r: Ref, i | r < |after| && 0 <= i < |Slots(after[r])| && Slots(after[r])[i].Some?
        ensures rank(Slots(after[r])[i].value) < rank(r)
      {
        if r == o && Slots(after[o])[i] != val {
          var j :| 0 <= j < |Slots(cells[o])| && Slots(cells[o])[j] == Slots(after[o])[i];
        }
      }
    }
  }

  /** New members keep the ranking and the record of what was freed. */
  lemma Rebodying(cells: seq<Cell>, rank: Ref -> nat, freed: seq<Ref>, o: Ref, body: Body, val: Option<Ref>)
    requires Ranked(cells, rank) && FreedOnce(cells, freed) && o < |cells| && cells[o].Node?
    requires From(Members(body), Slots(cells[o]), val)
    requires val.Some? ==> rank(val.value) < rank(o)
    ensures Ranked(cells[o := Node(cells[o].rc, body)], rank)
    ensures FreedOnce(cells[o := Node(cells[o].rc, body)], freed)
  {
    hide Members, Ranked;
    RebodiedRank(cells, rank, o, body, val);
  }

  lemma RaisedAbove(cells: seq<Cell>, rank: Ref -> nat, o: Ref, val: Ref)
    requires !Reaches(cells, val, o)
    ensures Raised(cells, rank, o, val)(val) < Raised(cells, rank, o, val)(o)
  {
    var p := [o];
    assert Path(cells, p) && p[0] == o && p[|p| - 1] == o;
    assert Reaches(cells, o, o);
  }

  lemma HoldsOne(held: multiset<Ref>, outer: multiset<Ref>, s: Option<Ref>, rest: multiset<Ref>)
    requires held == outer + One(s) + rest
    ensures s.Some? ==> held[s.value] > 0
    ensures held - One(s) == outer + rest
  {
  }

  lemma SameSlotsSameRank(before: seq<Cell>, after: seq<Cell>, rank: Ref -> nat)
    requires Ranked(before, rank) && |before| == |after|
    requires forall r :: 0 <= r < |after| ==>
               after[r] == before[r] || (after[r].Node? && before[r].Node? && after[r].body == before[r].body)
    ensures Ranked(after, rank)
  {
    forall r: Ref | r < |after|
      ensures Slots(after[r]) == Slots(before[r])
    {
    }
  }

  lemma DyingRanked(before: seq<Cell>, o: Ref, rank: Ref -> nat)
    requires Ranked(before, rank) && o < |before|
    ensures Ranked(before[o := Dying], rank)
    ensures forall i :: 0 <= i < |Slots(before[o])| && Slots(before[o])[i].Some? ==>
        rank(Slots(before[o])[i].value) < rank(o)
  {
  }

  lemma TouchesNone(cells: seq<Cell>, slots: seq<Option<Ref>>)
    ensures Touches(cells, cells, slots)
  {
  }

  lemma ReachesItself(cells: seq<Cell>, o: Ref)
    ensures Reaches(cells, o, o)
  {
    var p := [o];
    assert Path(cells, p) && p[0] == o && p[|p| - 1] == o;
  }

  lemma TouchesOne(cells: seq<Cell>, o: Ref, c: Cell)
    requires o < |cells|
    ensures Touches(cells, cells[o := c], [Some(o)])
  {
    hide Reaches;
    ReachesItself(cells, o);
    assert [Some(o)][0] == Some(o);
  }

  lemma ShrunkThinner(before: seq<Cell>, after: seq<Cell>)
    requires Shrunk(before, after)
    ensures Thinner(before, after)
  {
    hide Members;
    forall r: Ref, s: Ref | r < |after| && Some(s) in Slots(after[r])
      ensures r < |before| && Some(s) in Slots(before[r])
    {
      SlotsOfNode(after[r]);
    }
  }

  lemma TouchesMore(before: seq<Cell>, mid: seq<Cell>, after: seq<Cell>, slots: seq<Option<Ref>>, i: nat)
    requires Shrunk(before, mid) && Touches(before, mid, slots) && i < |slots| && Touches(mid, after, [slots[i]])
    ensures Touches(before, after, slots)
  {
    hide Reaches, Shrunk, Thinner;
    ShrunkThinner(before, mid);
    forall x: Ref | x < |before| && forall j :: 0 <= j < |slots| && slots[j].Some? ==>
        !Reaches(before, slots[j].value, x)
      ensures after[x] == before[x]
    {
      if slots[i].Some? && Reaches(mid, slots[i].value, x) {
        ThinnerReaches(before, mid, slots[i].value, x);
      }
      assert forall j :: 0 <= j < |[slots[i]]| ==> [slots[i]][j] == slots[i];
    }
  }

  /** Tearing an object down touches what it leads to. */
  lemma TouchesTree(before: seq<Cell>, after: seq<Cell>, o: Ref)
    requires o < |before| && Touches(before[o := Dying], after, Slots(before[o]))
    ensures Touches(before, after[o := Gone], [Some(o)])
  {
    hide Reaches;
    var dying, slots := before[o := Dying], Slots(before[o]);
    ReachesItself(before, o);
    assert [Some(o)][0] == Some(o);
    forall x: Ref | x < |before| && !Reaches(before, o, x)
      ensures after[x] == before[x] && x != o
    {
      forall i | 0 <= i < |slots| && slots[i].Some?
        ensures !Reaches(dying, slots[i].value, x)
      {
        if Reaches(dying, slots[i].value, x) {
          ThinnerReaches(before, dying, slots[i].value, x);
          StepReaches(before, o, slots[i].value, x);
        }
      }
    }
  }

  lemma ShrunkSame(cells: seq<Cell>)
    ensures Shrunk(cells, cells)
  {
  }

  lemma StillThere(before: seq<Cell>, freed: seq<Ref>, o: Ref, rc: nat)
    requires FreedOnce(before, freed) && o < |before| && before[o].Node?
    ensures var after := before[o := Node(rc, before[o].body)]; Shrunk(before, after) && FreedOnce(after, freed)
  {
  }

  lemma StillDying(before: seq<Cell>, freed: seq<Ref>, o: Ref)
    requires FreedOnce(before, freed) && o < |before| && before[o].Node?
    ensures FreedOnce(before[o := Dying], freed)
  {
  }

  lemma NowGone(before: seq<Cell>, after: seq<Cell>, freed: seq<Ref>, o: Ref)
    requires o < |before| && before[o].Node? && Shrunk(before[o := Dying], after) && FreedOnce(after, freed)
    requires o < |after| && after[o] == Dying
    ensures Shrunk(before, after[o := Gone]) && FreedOnce(after[o := Gone], freed + [o])
  {
  }
}
