/**
 `json_object_deep_copy`: a new tree, built object by object, that denotes the same value as its
 source and shares nothing with it; a copy that fails half way leaves nothing behind.
 */
module DeepCopy {
  import opened Basics
  import opened OrderedMap
  import opened JsonValue
  import opened RefGraph
  import opened RefCount
  import JsonEquality

  /** The tree of values a slot denotes; an object that is shared appears wherever it is named. */
  ghost function Tree(cells: seq<Cell>, rank: Ref -> nat, s: Option<Ref>): Json
    requires Ranked(cells, rank)
    decreases if s.Some? then rank(s.value) + 1 else 0, 0
  {
    if s.None? || s.value >= |cells| || !cells[s.value].Node? then Null
    else match cells[s.value].body
      case Scalar(v) => v
      case Array(elems) =>
        Arr(seq(|elems|, i requires 0 <= i < |elems| => TreeOf(cells, rank, s.value, i)))
      case Object(fields) =>
        Obj(seq(|fields|, i requires 0 <= i < |fields| => Pair(fields[i].key, TreeOf(cells, rank, s.value, i))))
  }

  /** The tree of one member. */
  ghost function TreeOf(cells: seq<Cell>, rank: Ref -> nat, o: Ref, i: nat): Json
    requires Ranked(cells, rank) && o < |cells| && i < |Slots(cells[o])|
    decreases rank(o), 1
  {
    var m := Slots(cells[o])[i];
    assert m.Some? ==> rank(m.value) < rank(o);
    Tree(cells, rank, m)
  }

  /** The units of memory a copy takes: one for every object, and one for every slot that is filled. */
  ghost function Units(cells: seq<Cell>, rank: Ref -> nat, s: Option<Ref>): nat
    requires Ranked(cells, rank)
    decreases if s.Some? then rank(s.value) + 1 else 0, 0
  {
    if s.None? || s.value >= |cells| || !cells[s.value].Node? then 0
    else 1 + SlotUnits(cells, rank, s.value, |Slots(cells[s.value])|)
  }

  /** The units that the first `n` slots take. */
  ghost function SlotUnits(cells: seq<Cell>, rank: Ref -> nat, o: Ref, n: nat): nat
    requires Ranked(cells, rank) && o < |cells| && n <= |Slots(cells[o])|
    decreases rank(o), n
  {
    if n == 0 then 0
    else
      var m := Slots(cells[o])[n - 1];
      assert m.Some? ==> rank(m.value) < rank(o);
      SlotUnits(cells, rank, o, n - 1) + Units(cells, rank, m) + 1
  }

  lemma {:induction false} SlotUnitsGrow(cells: seq<Cell>, rank: Ref -> nat, o: Ref, m: nat, n: nat)
    requires Ranked(cells, rank) && o < |cells| && m <= n <= |Slots(cells[o])|
    ensures SlotUnits(cells, rank, o, m) <= SlotUnits(cells, rank, o, n)
    decreases n
  {
    hide Ranked, Slots, Units;
    if m < n {
      SlotUnitsGrow(cells, rank, o, m, n - 1);
    }
  }

  /** Slots of cells from `n` on lead to cells from `n` on. */
  ghost predicate Above(cells: seq<Cell>, n: nat) {
    forall r: Ref, i :: n <= r < |cells| && 0 <= i < |Slots(cells[r])| && Slots(cells[r])[i].Some?
      ==> Slots(cells[r])[i].value >= n
  }

  /** Slots of a graph lead to objects of the graph. */
  ghost predicate Closed(base: seq<Cell>) {
    forall r: Ref, i :: r < |base| && 0 <= i < |Slots(base[r])| && Slots(base[r])[i].Some?
      ==> Slots(base[r])[i].value < |base| && base[Slots(base[r])[i].value].Node?
  }

  ghost predicate Agrees(a: seq<Cell>, b: seq<Cell>, n: nat) {
    |a| <= |b| && forall r: Ref :: n <= r < |a| ==> b[r] == a[r]
  }

  /** Cells in a window that slots do not leave denote what they denoted, whatever ranking shows it. */
  lemma {:induction false} TreeFrame(a: seq<Cell>, ra: Ref -> nat, b: seq<Cell>, rb: Ref -> nat, n: nat, s: Option<Ref>)
    requires Ranked(a, ra) && Ranked(b, rb) && Above(a, n) && Closed(a) && (s.Some? ==> n <= s.value < |a|)
    requires Agrees(a, b, n)
    ensures Tree(a, ra, s) == Tree(b, rb, s)
    decreases if s.Some? then ra(s.value) + 1 else 0
  {
    if s.Some? && a[s.value].Node? {
      var o := s.value;
      assert b[o] == a[o];
      forall i | 0 <= i < |Slots(a[o])|
        ensures TreeOf(a, ra, o, i) == TreeOf(b, rb, o, i)
      {
        TreeFrame(a, ra, b, rb, n, Slots(a[o])[i]);
      }
    }
  }

  /** The keys of every object are distinct, as a linkhash table keeps them. */
  ghost predicate WellKeyed(cells: seq<Cell>) {
    forall r: Ref :: r < |cells| && cells[r].Node? && cells[r].body.Object? ==> Distinct(cells[r].body.fields)
  }

  lemma ConservedIsClosed(cells: seq<Cell>, handles: multiset<Ref>)
    requires Conserved(cells, handles)
    ensures Closed(cells)
  {
    hide In, Slots;
    forall r: Ref, i | r < |cells| && 0 <= i < |Slots(cells[r])| && Slots(cells[r])[i].Some?
      ensures Slots(cells[r])[i].value < |cells| && cells[Slots(cells[r])[i].value].Node?
    {
      SlotCounts(cells, r, Slots(cells[r])[i].value);
      assert Rc(cells, Slots(cells[r])[i].value) > 0;
    }
  }

  // ------------------------------------------------------------ facts about a growing copy

  /** From a cell above the line nothing below it is reached. */
  lemma AboveReaches(cells: seq<Cell>, n: nat, a: Ref, b: Ref)
    requires Above(cells, n) && a >= n && Reaches(cells, a, b)
    ensures b >= n
  {
    hide Slots;
    var p :| Path(cells, p) && p[0] == a && p[|p| - 1] == b;
    AboveAlong(cells, n, p, |p| - 1);
  }

  lemma {:induction false} AboveAlong(cells: seq<Cell>, n: nat, p: seq<Ref>, i: nat)
    requires Above(cells, n) && Path(cells, p) && p[0] >= n && i < |p|
    ensures p[i] >= n
  {
    hide Slots, Path;
    if i > 0 {
      AboveAlong(cells, n, p, i - 1);
      PathStep(cells, p, i - 1);
      var k :| 0 <= k < |Slots(cells[p[i - 1]])| && Slots(cells[p[i - 1]])[k] == Some(p[i]);
    }
  }

  lemma AboveMore(before: seq<Cell>, after: seq<Cell>, n: nat, m: nat)
    requires n <= m == |before| <= |after| && before <= after && Above(before, n) && Above(after, m)
    ensures Above(after, n)
  {
    hide Slots;
    forall r: Ref, i | n <= r < |after| && 0 <= i < |Slots(after[r])| && Slots(after[r])[i].Some?
      ensures Slots(after[r])[i].value >= n
    {
      if r < m {
        assert after[r] == before[r];
      }
    }
  }

  lemma ShrunkAbove(before: seq<Cell>, after: seq<Cell>, n: nat)
    requires Shrunk(before, after) && Above(before, n)
    ensures Above(after, n)
  {
    hide Members;
    forall r: Ref | r < |after|
      ensures Slots(after[r]) == [] || Slots(after[r]) == Slots(before[r])
    {
    }
  }

  /** Letting a partial copy go leaves everything below it alone. */
  lemma PutAbove(before: seq<Cell>, after: seq<Cell>, n: nat, s: Option<Ref>)
    requires n <= |before| && Above(before, n) && Touches(before, after, [s]) && (s.Some? ==> s.value >= n)
    ensures |before| == |after| && after[..n] == before[..n]
  {
    hide Above, Reaches;
    forall x: Ref | x < n
      ensures after[x] == before[x]
    {
      forall i | 0 <= i < |[s]| && [s][i].Some?
        ensures !Reaches(before, [s][i].value, x)
      {
        if Reaches(before, s.value, x) {
          AboveReaches(before, n, s.value, x);
        }
      }
    }
  }

  // ------------------------------------------------------------ the copier

  /** `json_c_shallow_copy_default`: a scalar with its value, a container with no members. */
  function Shallow(b: Body): (c: Body)
    ensures Members(c) == []
  {
    match b
    case Scalar(v) => b
    case Array(_) => Array([])
    case Object(_) => Object([])
  }

  /** What the members copied so far have to be: new objects that denote what the source's members denote. */
  ghost predicate Copied(cells: seq<Cell>, rank: Ref -> nat, slots: seq<Option<Ref>>,
                         base: seq<Cell>, depth: Ref -> nat, from: seq<Option<Ref>>, n: nat)
    requires Ranked(cells, rank) && Ranked(base, depth)
  {
    && |slots| <= |from|
    && forall i :: 0 <= i < |slots| ==>
         && (slots[i].Some? ==> n <= slots[i].value < |cells|)
         && Tree(cells, rank, slots[i]) == Tree(base, depth, from[i])
  }

  lemma CopiedFrame(a: seq<Cell>, ra: Ref -> nat, b: seq<Cell>, rb: Ref -> nat, slots: seq<Option<Ref>>,
                    base: seq<Cell>, depth: Ref -> nat, from: seq<Option<Ref>>, n: nat)
    requires Ranked(a, ra) && Ranked(b, rb) && Ranked(base, depth) && Above(a, n) && Closed(a) && |a| <= |b|
    requires Agrees(a, b, n)
    requires Copied(a, ra, slots, base, depth, from, n)
    ensures Copied(b, rb, slots, base, depth, from, n)
  {
    hide Ranked, Above, Closed, Tree;
    forall i | 0 <= i < |slots|
      ensures Tree(b, rb, slots[i]) == Tree(base, depth, from[i])
    {
      TreeFrame(a, ra, b, rb, n, slots[i]);
    }
  }

  lemma CopiedOne(cells: seq<Cell>, rank: Ref -> nat, slots: seq<Option<Ref>>, s: Option<Ref>,
                  base: seq<Cell>, depth: Ref -> nat, from: seq<Option<Ref>>, n: nat)
    requires Ranked(cells, rank) && Ranked(base, depth) && |slots| < |from|
    requires Copied(cells, rank, slots, base, depth, from, n)
    requires (s.Some? ==> n <= s.value < |cells|) && Tree(cells, rank, s) == Tree(base, depth, from[|slots|])
    ensures Copied(cells, rank, slots + [s], base, depth, from, n)
  {
    hide Ranked, Tree;
  }

  /** Storing into the container under construction changes nothing above it. */
  lemma StoredAbove(cells: seq<Cell>, d: Ref, c: Cell)
    requires d < |cells| && Above(cells, d + 1)
    ensures Above(cells[d := c], d + 1)
  {
  }

  lemma AboveContainer(cells: seq<Cell>, d: Ref)
    requires d < |cells| && Above(cells, d + 1)
    requires forall i :: 0 <= i < |Slots(cells[d])| && Slots(cells[d])[i].Some? ==> Slots(cells[d])[i].value > d
    ensures Above(cells, d)
  {
    hide Slots;
  }

  /** A member of the source: NULL stays NULL; a copy that fails half way is let go of. */
  method CopyMember(store: Store, m: Option<Ref>, ghost base: seq<Cell>, ghost depth: Ref -> nat, memory: nat)
      returns (rc: int, jso: Option<Ref>, left: nat)
    requires store.Valid() && Ranked(base, depth) && Closed(base) && WellKeyed(base) && base <= store.cells
    requires m.Some? ==> m.value < |base| && base[m.value].Node?
    modifies store
    ensures store.Valid() && old(store.cells) <= store.cells && Above(store.cells, |old(store.cells)|)
    ensures rc == 0 || rc == -1
    ensures rc == 0 ==> store.handles == old(store.handles) + One(jso)
    ensures rc == -1 ==> store.handles == old(store.handles)
    ensures rc == 0 ==> (jso.Some? ==> |old(store.cells)| <= jso.value < |store.cells|)
                        && Tree(store.cells, store.rank, jso) == Tree(base, depth, m)
    ensures rc == 0 <==> memory >= Units(base, depth, m)
    ensures rc == 0 ==> left == memory - Units(base, depth, m)
    decreases if m.Some? then depth(m.value) + 1 else 0, 0
  {
    hide Conserved, Ranked, Closed, WellKeyed, FreedOnce, Above, Shrunk, FreesUnreached, Touches;
    rc, jso, left := 0, None, memory;
    if m.None? {
      AboveAll(store.cells);
      NullTrees(store.cells, store.rank, base, depth);
      return;
    }
    ghost var n := |store.cells|;
    rc, jso, left := CopyRecursive(store, m.value, base, depth, memory);
    if rc < 0 {
      ghost var before := store.cells;
      LetGoHandle(store.handles, old(store.handles), jso);
      var _ := store.Put(jso);
      ShrunkAbove(before, store.cells, n);
      PutAbove(before, store.cells, n, jso);
      assert store.cells[..n] == old(store.cells);
    }
  }

  lemma AboveAll(cells: seq<Cell>)
    ensures Above(cells, |cells|)
  {
  }

  lemma NullTrees(a: seq<Cell>, ra: Ref -> nat, b: seq<Cell>, rb: Ref -> nat)
    requires Ranked(a, ra) && Ranked(b, rb)
    ensures Tree(a, ra, None) == Tree(b, rb, None)
  {
  }

  lemma LetGoHandle(handles: multiset<Ref>, others: multiset<Ref>, s: Option<Ref>)
    requires handles == others + One(s)
    ensures s.Some? ==> handles[s.value] > 0
    ensures handles - One(s) == others
  {
  }

  /** `json_object_deep_copy_recursive`. Each allocation and each add uses up one unit of memory. */
  method CopyRecursive(store: Store, src: Ref, ghost base: seq<Cell>, ghost depth: Ref -> nat, memory: nat)
      returns (rc: int, dst: Option<Ref>, left: nat)
    requires store.Valid() && Ranked(base, depth) && Closed(base) && WellKeyed(base) && base <= store.cells
    requires src < |base| && base[src].Node?
    modifies store
    ensures store.Valid() && old(store.cells) <= store.cells && Above(store.cells, |old(store.cells)|)
    ensures store.handles == old(store.handles) + One(dst)
    ensures dst.Some? ==> |old(store.cells)| <= dst.value < |store.cells|
    ensures rc == 0 || rc == -1
    ensures rc == 0 ==> dst.Some? && Tree(store.cells, store.rank, dst) == Tree(base, depth, Some(src))
    ensures rc == 0 <==> memory >= Units(base, depth, Some(src))
    ensures rc == 0 ==> left == memory - Units(base, depth, Some(src))
    decreases depth(src), 3
  {
    hide Conserved, Ranked, Closed, WellKeyed, FreedOnce, Above;
    if memory == 0 {
      AboveAll(store.cells);
      return -1, None, 0;
    }
    var body := store.cells[src].body;
    assert base[src].body == body;
    ghost var n := |store.cells|;
    AboveAll(store.cells);
    NoSlotsAbove(store.cells, Node(1, Shallow(body)));
    var d := store.New(Shallow(body));
    left := memory - 1;
    dst := Some(d);
    rc := 0;
    if body.Array? {
      rc, left := CopyElems(store, d, src, body.elems, base, depth, left);
    } else if body.Object? {
      rc, left := CopyFields(store, d, src, body.fields, base, depth, left);
    } else {
      ScalarTrees(store.cells, store.rank, d, base, depth, src);
    }
  }

  lemma NoSlotsAbove(cells: seq<Cell>, c: Cell)
    requires Slots(c) == []
    ensures Above(cells + [c], |cells|) && Above(cells + [c], |cells| + 1)
  {
  }

  lemma ScalarTrees(a: seq<Cell>, ra: Ref -> nat, d: Ref, b: seq<Cell>, rb: Ref -> nat, src: Ref)
    requires Ranked(a, ra) && Ranked(b, rb) && d < |a| && src < |b|
    requires a[d].Node? && b[src].Node? && b[src].body.Scalar? && a[d].body == b[src].body
    ensures Tree(a, ra, Some(d)) == Tree(b, rb, Some(src))
  {
  }

  /** A copy of one more member leaves the ones before as they are. */
  lemma AfterMember(a: seq<Cell>, ra: Ref -> nat, b: seq<Cell>, rb: Ref -> nat, handles: multiset<Ref>, d: Ref,
                    base: seq<Cell>, depth: Ref -> nat, from: seq<Option<Ref>>)
    requires Ranked(a, ra) && Ranked(b, rb) && Ranked(base, depth) && Conserved(a, handles)
    requires a <= b && d < |a| && Above(a, d + 1) && Above(b, |a|)
    requires Copied(a, ra, Slots(a[d]), base, depth, from, d + 1)
    ensures b[d] == a[d] && Above(b, d + 1) && Above(b, d)
    ensures Copied(b, rb, Slots(b[d]), base, depth, from, d + 1)
  {
    hide Ranked, Conserved, Above, Closed, Copied, Slots;
    assert b[d] == a[d];
    AboveMore(a, b, d + 1, |a|);
    ConservedIsClosed(a, handles);
    CopiedFrame(a, ra, b, rb, Slots(a[d]), base, depth, from, d + 1);
    ContainerAbove(b, rb, d, Slots(b[d]), base, depth, from);
  }

  /** Taking the copy in as one more member. */
  lemma AfterStore(b: seq<Cell>, rb: Ref -> nat, c: seq<Cell>, rc: Ref -> nat, handles: multiset<Ref>, d: Ref,
      jso: Option<Ref>,
                   base: seq<Cell>, depth: Ref -> nat, from: seq<Option<Ref>>)
    requires Ranked(b, rb) && Ranked(c, rc) && Ranked(base, depth) && Conserved(b, handles)
    requires d < |b| && Above(b, d + 1) && |c| == |b| && c == b[d := c[d]] && Slots(c[d]) == Slots(b[d]) + [jso]
    requires |Slots(b[d])| < |from| && Copied(b, rb, Slots(b[d]), base, depth, from, d + 1)
    requires (jso.Some? ==> d < jso.value < |b|) && Tree(b, rb, jso) == Tree(base, depth, from[|Slots(b[d])|])
    ensures Above(c, d + 1) && Copied(c, rc, Slots(c[d]), base, depth, from, d + 1)
  {
    hide Ranked, Conserved, Above, Closed, Copied, Slots, Tree;
    StoredAbove(b, d, c[d]);
    ConservedIsClosed(b, handles);
    CopiedOne(b, rb, Slots(b[d]), jso, base, depth, from, d + 1);
    CopiedFrame(b, rb, c, rc, Slots(c[d]), base, depth, from, d + 1);
  }

  /** A member that could not be taken in is let go of again. */
  method DropMember(store: Store, jso: Option<Ref>, d: Ref, ghost others: multiset<Ref>)
    requires store.Valid() && store.handles == others + One(jso) && (jso.Some? ==> jso.value >= d)
    requires d < |store.cells| && Above(store.cells, d)
    modifies store
    ensures store.Valid() && store.handles == others && |store.cells| == |old(store.cells)|
    ensures store.cells[..d] == old(store.cells)[..d] && Above(store.cells, d)
  {
    hide Conserved, Ranked, FreedOnce, Above, Shrunk, FreesUnreached, Touches;
    ghost var before := store.cells;
    LetGoHandle(store.handles, others, jso);
    var _ := store.Put(jso);
    ShrunkAbove(before, store.cells, d);
    PutAbove(before, store.cells, d, jso);
  }

  /** A container under construction: its members so far are copies of the source's first members. */
  ghost predicate Building(cells: seq<Cell>, rank: Ref -> nat, d: Ref, base: seq<Cell>, depth: Ref -> nat,
      from: seq<Option<Ref>>)
    requires Ranked(cells, rank) && Ranked(base, depth)
  {
    && d < |cells| && |base| <= d && base <= cells[..d] && Above(cells, d + 1)
    && cells[d].Node? && cells[d].rc == 1
    && Copied(cells, rank, Slots(cells[d]), base, depth, from, d + 1)
  }

  /** One turn of the array loop. */
  method CopyElem(store: Store, d: Ref, src: Ref, elems: seq<Option<Ref>>, ii: nat,
                  ghost base: seq<Cell>, ghost depth: Ref -> nat, memory: nat) returns (rc: int, left: nat)
    requires store.Valid() && Ranked(base, depth) && Closed(base) && WellKeyed(base)
    requires Building(store.cells, store.rank, d, base, depth, elems)
    requires store.cells[d].body.Array? && |store.cells[d].body.elems| == ii < |elems|
    requires src < |base| && base[src].Node? && base[src].body == Array(elems)
    modifies store
    ensures store.Valid() && d < |store.cells| && old(store.cells)[..d] <= store.cells && Above(store.cells, d)
    ensures store.handles == old(store.handles)
    ensures rc == 0 || rc == -1
    ensures rc == 0 ==> Building(store.cells, store.rank, d, base, depth, elems)
                        && store.cells[d].body.Array? && |store.cells[d].body.elems| == ii + 1
    ensures rc == 0 <==> memory >= Units(base, depth, elems[ii]) + 1
    ensures rc == 0 ==> left == memory - Units(base, depth, elems[ii]) - 1
    decreases depth(src), 1
  {
    hide Conserved, Ranked, Closed, WellKeyed, FreedOnce, Above, Kids, Reaches, Touches, Shrunk, FreesUnreached,
        Copied, One, Tree, Units;
    ghost var a, ra := store.cells, store.rank;
    MemberOf(base, depth, src, ii);
    PrefixTrans(base, a[..d], a);
    var r, jso, left' := CopyMember(store, elems[ii], base, depth, memory);
    left := left';
    ghost var b, rb := store.cells, store.rank;
    AfterMember(a, ra, b, rb, old(store.handles), d, base, depth, elems);
    if r < 0 {
      return -1, left;
    }
    NotBelow(b, d + 1, jso, d);
    rc := store.ArrayAdd(d, jso, left > 0);
    if rc < 0 {
      DropMember(store, jso, d, old(store.handles));
      return -1, left;
    }
    left := left - 1;
    AfterStore(b, rb, store.cells, store.rank, old(store.handles) + One(jso), d, jso, base, depth, elems);
    ContainerAbove(store.cells, store.rank, d, Slots(store.cells[d]), base, depth, elems);
  }

  /** The array loop. */
  method CopyElems(store: Store, d: Ref, src: Ref, elems: seq<Option<Ref>>, ghost base: seq<Cell>,
      ghost depth: Ref -> nat, memory: nat)
      returns (rc: int, left: nat)
    requires store.Valid() && Ranked(base, depth) && Closed(base) && WellKeyed(base)
    requires d + 1 == |store.cells| && store.cells[d] == Node(1, Array([])) && Above(store.cells, d + 1)
    requires base <= store.cells[..d] && src < |base| && base[src].Node? && base[src].body == Array(elems)
    modifies store
    ensures store.Valid() && d < |store.cells| && old(store.cells)[..d] <= store.cells && Above(store.cells, d)
    ensures store.handles == old(store.handles)
    ensures rc == 0 || rc == -1
    ensures rc == 0 ==> Tree(store.cells, store.rank, Some(d)) == Tree(base, depth, Some(src))
    ensures rc == 0 <==> memory >= SlotUnits(base, depth, src, |Slots(base[src])|)
    ensures rc == 0 ==> left == memory - SlotUnits(base, depth, src, |Slots(base[src])|)
    decreases depth(src), 2
  {
    hide Conserved, Ranked, Closed, WellKeyed, FreedOnce, Above, Copied, Tree, Units;
    left := memory;
    var ii := 0;
    NothingCopied(store.cells, store.rank, base, depth, elems, d + 1);
    while ii < |elems|
      invariant store.Valid() && 0 <= ii <= |elems|
      invariant Building(store.cells, store.rank, d, base, depth, elems) && old(store.cells)[..d] <= store.cells
      invariant store.handles == old(store.handles)
      invariant store.cells[d].body.Array? && |store.cells[d].body.elems| == ii
      invariant memory >= SlotUnits(base, depth, src, ii) && left == memory - SlotUnits(base, depth, src, ii)
    {
      SlotUnitsGrow(base, depth, src, ii + 1, |elems|);
      rc, left := CopyElem(store, d, src, elems, ii, base, depth, left);
      if rc < 0 {
        return -1, left;
      }
      ii := ii + 1;
    }
    rc := 0;
    ContainerAbove(store.cells, store.rank, d, store.cells[d].body.elems, base, depth, elems);
    ArrayTrees(store.cells, store.rank, d, base, depth, src);
  }

  lemma NothingCopied(cells: seq<Cell>, rank: Ref -> nat, base: seq<Cell>, depth: Ref -> nat, from: seq<Option<Ref>>,
      n: nat)
    requires Ranked(cells, rank) && Ranked(base, depth)
    ensures Copied(cells, rank, [], base, depth, from, n)
  {
  }

  lemma MemberOf(base: seq<Cell>, depth: Ref -> nat, src: Ref, i: nat)
    requires Ranked(base, depth) && Closed(base) && src < |base| && i < |Slots(base[src])|
    ensures var m := Slots(base[src])[i];
            m.Some? ==> m.value < |base| && base[m.value].Node? && depth(m.value) < depth(src)
  {
  }

  lemma PrefixTrans(a: seq<Cell>, b: seq<Cell>, c: seq<Cell>)
    requires a <= b <= c
    ensures a <= c
  {
  }

  lemma ContainerAbove(cells: seq<Cell>, rank: Ref -> nat, d: Ref, slots: seq<Option<Ref>>,
                       base: seq<Cell>, depth: Ref -> nat, from: seq<Option<Ref>>)
    requires Ranked(cells, rank) && Ranked(base, depth) && d < |cells| && Above(cells, d + 1)
    requires Slots(cells[d]) == slots && Copied(cells, rank, slots, base, depth, from, d + 1)
    ensures Above(cells, d)
  {
    hide Ranked, Tree, Above;
    AboveContainer(cells, d);
  }

  lemma NotBelow(cells: seq<Cell>, n: nat, s: Option<Ref>, d: Ref)
    requires Above(cells, n) && (s.Some? ==> s.value >= n) && d < n
    ensures s.Some? ==> !Reaches(cells, s.value, d)
  {
    hide Above, Reaches;
    if s.Some? && Reaches(cells, s.value, d) {
      AboveReaches(cells, n, s.value, d);
    }
  }

  lemma ArrayTrees(a: seq<Cell>, ra: Ref -> nat, d: Ref, b: seq<Cell>, rb: Ref -> nat, src: Ref)
    requires Ranked(a, ra) && Ranked(b, rb) && d < |a| && src < |b|
    requires a[d].Node? && a[d].body.Array? && b[src].Node? && b[src].body.Array?
    requires |a[d].body.elems| == |b[src].body.elems|
    requires Copied(a, ra, a[d].body.elems, b, rb, b[src].body.elems, d + 1)
    ensures Tree(a, ra, Some(d)) == Tree(b, rb, Some(src))
  {
  }

  /** `json_object_object_add` under a key that is not there yet. */
  method AddField(store: Store, d: Ref, key: string, jso: Option<Ref>, memory: bool) returns (rc: int)
    requires store.Valid() && store.IsNode(d) && store.cells[d].body.Object? && !Has(store.cells[d].body.fields, key)
    requires One(jso) <= store.handles && (jso.Some? ==> !Reaches(store.cells, jso.value, d))
    modifies store
    ensures store.Valid() && rc == if memory then 0 else -1
    ensures rc == 0 ==> store.cells == old(store.cells)[d := Node(old(store.cells)[d].rc,
        Object(old(store.cells)[d].body.fields + [Pair(key, jso)]))]
    ensures rc == 0 ==> store.handles == old(store.handles) - One(jso)
    ensures rc == -1 ==> store.cells == old(store.cells) && store.handles == old(store.handles)
  {
    hide Conserved, Ranked, FreedOnce, Kids, Reaches, Shrunk, Settled, Values, Find, One;
    ReachesItself(store.cells, d);
    rc := store.ObjectAdd(d, key, jso, memory);
  }

  method TakeField(store: Store, d: Ref, ghost src: Ref, fields: seq<Pair<string, Option<Ref>>>, ii: nat,
      jso: Option<Ref>,
                   ghost base: seq<Cell>, ghost depth: Ref -> nat, ghost others: multiset<Ref>,
                       memory: bool) returns (rc: int)
    requires store.Valid() && Ranked(base, depth) && WellKeyed(base) && store.handles == others + One(jso)
    requires Building(store.cells, store.rank, d, base, depth, Values(fields)) && Above(store.cells, d)
    requires store.cells[d].body.Object? && ii < |fields| && SameKeys(store.cells[d].body.fields, fields, ii)
    requires src < |base| && base[src].Node? && base[src].body == Object(fields)
    requires (jso.Some? ==> d < jso.value < |store.cells|) && Tree(store.cells, store.rank, jso) == Tree(base, depth,
        fields[ii].val)
    modifies store
    ensures store.Valid() && |store.cells| == |old(store.cells)| && store.cells[..d] == old(store.cells)[..d]
    ensures Above(store.cells, d) && store.handles == others
    ensures rc == if memory then 0 else -1
    ensures rc == 0 ==> Building(store.cells, store.rank, d, base, depth, Values(fields))
                        && store.cells[d].body.Object? && SameKeys(store.cells[d].body.fields, fields, ii + 1)
  {
    hide Conserved, Ranked, WellKeyed, FreedOnce, Above, Reaches, Copied, One, Tree, Values, SameKeys;
    ghost var b, rb, fs := store.cells, store.rank, store.cells[d].body.fields;
    NotBelow(b, d + 1, jso, d);
    KeyIsNew(base, src, fs, ii);
    rc := AddField(store, d, fields[ii].key, jso, memory);
    if rc < 0 {
      DropMember(store, jso, d, others);
      return -1;
    }
    MoreValues(fs, fields[ii].key, jso);
    MoreKeys(fs, fields, ii, jso);
    AfterStore(b, rb, store.cells, store.rank, others + One(jso), d, jso, base, depth, Values(fields));
    ContainerAbove(store.cells, store.rank, d, Slots(store.cells[d]), base, depth, Values(fields));
  }

  /** One turn of the object loop. */
  method CopyField(store: Store, d: Ref, src: Ref, fields: seq<Pair<string, Option<Ref>>>, ii: nat,
                   ghost base: seq<Cell>, ghost depth: Ref -> nat, memory: nat) returns (rc: int, left: nat)
    requires store.Valid() && Ranked(base, depth) && Closed(base) && WellKeyed(base)
    requires Building(store.cells, store.rank, d, base, depth, Values(fields))
    requires store.cells[d].body.Object? && ii < |fields| && SameKeys(store.cells[d].body.fields, fields, ii)
    requires src < |base| && base[src].Node? && base[src].body == Object(fields)
    modifies store
    ensures store.Valid() && d < |store.cells| && old(store.cells)[..d] <= store.cells && Above(store.cells, d)
    ensures store.handles == old(store.handles)
    ensures rc == 0 || rc == -1
    ensures rc == 0 ==> Building(store.cells, store.rank, d, base, depth, Values(fields))
                        && store.cells[d].body.Object? && SameKeys(store.cells[d].body.fields, fields, ii + 1)
    ensures rc == 0 <==> memory >= Units(base, depth, fields[ii].val) + 1
    ensures rc == 0 ==> left == memory - Units(base, depth, fields[ii].val) - 1
    decreases depth(src), 1
  {
    hide Conserved, Ranked, Closed, WellKeyed, FreedOnce, Above, Kids, Reaches, Touches, Shrunk, FreesUnreached,
        Copied, One, Tree, Units,
         Values, Settled, Find, SameKeys;
    ghost var a, ra, fs := store.cells, store.rank, store.cells[d].body.fields;
    MemberOf(base, depth, src, ii);
    PrefixTrans(base, a[..d], a);
    var r, jso, left' := CopyMember(store, fields[ii].val, base, depth, memory);
    left := left';
    ghost var b, rb := store.cells, store.rank;
    AfterMember(a, ra, b, rb, old(store.handles), d, base, depth, Values(fields));
    if r < 0 {
      return -1, left;
    }
    rc := TakeField(store, d, src, fields, ii, jso, base, depth, old(store.handles), left > 0);
    left := if rc == 0 then left - 1 else left;
  }

  /** The object loop. */
  method CopyFields(store: Store, d: Ref, src: Ref, fields: seq<Pair<string, Option<Ref>>>,
                    ghost base: seq<Cell>, ghost depth: Ref -> nat, memory: nat)
      returns (rc: int, left: nat)
    requires store.Valid() && Ranked(base, depth) && Closed(base) && WellKeyed(base)
    requires d + 1 == |store.cells| && store.cells[d] == Node(1, Object([])) && Above(store.cells, d + 1)
    requires base <= store.cells[..d] && src < |base| && base[src].Node? && base[src].body == Object(fields)
    modifies store
    ensures store.Valid() && d < |store.cells| && old(store.cells)[..d] <= store.cells && Above(store.cells, d)
    ensures store.handles == old(store.handles)
    ensures rc == 0 || rc == -1
    ensures rc == 0 ==> Tree(store.cells, store.rank, Some(d)) == Tree(base, depth, Some(src))
    ensures rc == 0 <==> memory >= SlotUnits(base, depth, src, |Slots(base[src])|)
    ensures rc == 0 ==> left == memory - SlotUnits(base, depth, src, |Slots(base[src])|)
    decreases depth(src), 2
  {
    hide Conserved, Ranked, Closed, WellKeyed, FreedOnce, Above, Copied, Tree, Values, Units;
    left := memory;
    var ii := 0;
    NothingCopied(store.cells, store.rank, base, depth, Values(fields), d + 1);
    NoValues();
    while ii < |fields|
      invariant store.Valid() && 0 <= ii <= |fields|
      invariant Building(store.cells, store.rank, d, base, depth, Values(fields)) &&
          old(store.cells)[..d] <= store.cells
      invariant store.handles == old(store.handles)
      invariant store.cells[d].body.Object? && SameKeys(store.cells[d].body.fields, fields, ii)
      invariant memory >= SlotUnits(base, depth, src, ii) && left == memory - SlotUnits(base, depth, src, ii)
    {
      SlotUnitsGrow(base, depth, src, ii + 1, |fields|);
      rc, left := CopyField(store, d, src, fields, ii, base, depth, left);
      if rc < 0 {
        return -1, left;
      }
      ii := ii + 1;
    }
    rc := 0;
    ContainerAbove(store.cells, store.rank, d, Values(store.cells[d].body.fields), base, depth, Values(fields));
    ObjectTrees(store.cells, store.rank, d, base, depth, src);
  }

  /** The first `n` fields have been taken over, key by key. */
  ghost predicate SameKeys(fs: seq<Pair<string, Option<Ref>>>, fields: seq<Pair<string, Option<Ref>>>, n: nat) {
    |fs| == n <= |fields| && forall j :: 0 <= j < n ==> fs[j].key == fields[j].key
  }

  lemma MoreKeys(fs: seq<Pair<string, Option<Ref>>>, fields: seq<Pair<string, Option<Ref>>>, n: nat, val: Option<Ref>)
    requires n < |fields| && SameKeys(fs, fields, n)
    ensures SameKeys(fs + [Pair(fields[n].key, val)], fields, n + 1)
  {
  }

  lemma NoValues()
    ensures Values([]) == []
  {
  }

  lemma MoreValues(fs: seq<Pair<string, Option<Ref>>>, key: string, val: Option<Ref>)
    ensures Values(fs + [Pair(key, val)]) == Values(fs) + [val]
  {
  }

  lemma KeyIsNew(base: seq<Cell>, src: Ref, fs: seq<Pair<string, Option<Ref>>>, i: nat)
    requires WellKeyed(base) && src < |base| && base[src].Node? && base[src].body.Object?
    requires i < |base[src].body.fields| && SameKeys(fs, base[src].body.fields, i)
    ensures !Has(fs, base[src].body.fields[i].key)
  {
  }

  lemma ObjectTrees(a: seq<Cell>, ra: Ref -> nat, d: Ref, b: seq<Cell>, rb: Ref -> nat, src: Ref)
    requires Ranked(a, ra) && Ranked(b, rb) && d < |a| && src < |b|
    requires a[d].Node? && a[d].body.Object? && b[src].Node? && b[src].body.Object?
    requires SameKeys(a[d].body.fields, b[src].body.fields, |b[src].body.fields|)
    requires Copied(a, ra, Values(a[d].body.fields), b, rb, Values(b[src].body.fields), d + 1)
    ensures Tree(a, ra, Some(d)) == Tree(b, rb, Some(src))
  {
  }

  // ------------------------------------------------------------ the copy as a whole

  lemma {:induction false} BelowAlong(before: seq<Cell>, after: seq<Cell>, p: seq<Ref>, i: nat)
    requires Closed(before) && before <= after && Path(after, p) && p[0] < |before| && i < |p|
    ensures p[i] < |before|
  {
    hide Slots, Path;
    if i > 0 {
      BelowAlong(before, after, p, i - 1);
      PathStep(after, p, i - 1);
      assert after[p[i - 1]] == before[p[i - 1]];
      var k :| 0 <= k < |Slots(before[p[i - 1]])| && Slots(before[p[i - 1]])[k] == Some(p[i]);
    }
  }

  /** With the same handles as before, nothing new is alive. */
  lemma NothingLeft(before: seq<Cell>, after: seq<Cell>, handles: multiset<Ref>, rank: Ref -> nat, r: Ref)
    requires Conserved(before, handles) && Conserved(after, handles) && Ranked(after, rank) && before <= after
    requires |before| <= r < |after|
    ensures !after[r].Node?
  {
    hide Conserved, Ranked, Closed, Slots;
    if after[r].Node? {
      LiveIsReached(after, handles, rank, r);
      var p :| Path(after, p) && handles[p[0]] > 0 && p[|p| - 1] == r;
      HeldIsNode(before, handles, p[0]);
      ConservedIsClosed(before, handles);
      BelowAlong(before, after, p, |p| - 1);
    }
  }

  /** `json_object_deep_copy`. */
  method DeepCopy(store: Store, src: Ref, memory: nat) returns (rc: int, dst: Option<Ref>)
    requires store.Valid() && store.IsNode(src) && WellKeyed(store.cells)
    modifies store
    ensures store.Valid() && old(store.cells) <= store.cells && (rc == 0 || rc == -1)
    ensures store.handles == old(store.handles) + One(dst) && (dst.Some? <==> rc == 0)
    ensures rc == 0 <==> memory >= Units(old(store.cells), old(store.rank), Some(src))
    ensures rc == 0 ==> Tree(store.cells, store.rank, dst) == Tree(old(store.cells), old(store.rank), Some(src))
    ensures rc == 0 ==> forall r: Ref :: Reaches(store.cells, dst.value, r) ==> r >= |old(store.cells)|
    ensures rc == -1 ==> forall r: Ref :: |old(store.cells)| <= r < |store.cells| ==> !store.cells[r].Node?
  {
    hide Conserved, Ranked, Closed, WellKeyed, FreedOnce, Above, Shrunk, FreesUnreached, Touches, Reaches, Slots,
        Tree, Units;
    ghost var base, depth, held := store.cells, store.rank, store.handles;
    ConservedIsClosed(base, held);
    var left;
    rc, dst, left := CopyRecursive(store, src, base, depth, memory);
    if rc < 0 {
      ghost var before := store.cells;
      LetGoHandle(store.handles, held, dst);
      var _ := store.Put(dst);
      PutAbove(before, store.cells, |base|, dst);
      assert base <= store.cells;
      dst := None;
      forall r: Ref | |base| <= r < |store.cells|
        ensures !store.cells[r].Node?
      {
        NothingLeft(base, store.cells, held, store.rank, r);
      }
      return;
    }
    forall r: Ref | Reaches(store.cells, dst.value, r)
      ensures r >= |base|
    {
      AboveReaches(store.cells, |base|, dst.value, r);
    }
  }

  // ------------------------------------------------------------ equal to its source

  /** Scalars hold values without members. */
  ghost predicate PlainScalars(cells: seq<Cell>) {
    forall r: Ref :: r < |cells| && cells[r].Node? && cells[r].body.Scalar? ==>
          !cells[r].body.v.Arr? && !cells[r].body.v.Obj?
  }

  lemma {:induction false} AllKeyed(es: seq<Json>)
    requires forall i :: 0 <= i < |es| ==> JsonEquality.WellKeyed(es[i])
    ensures JsonEquality.AllWellKeyed(es)
  {
    if es != [] {
      AllKeyed(es[1..]);
    }
  }

  lemma {:induction false} FieldsKeyed(fs: seq<Field>)
    requires forall i :: 0 <= i < |fs| ==> JsonEquality.WellKeyed(fs[i].val)
    ensures JsonEquality.FieldsWellKeyed(fs)
  {
    if fs != [] {
      FieldsKeyed(fs[1..]);
    }
  }

  lemma {:induction false} TreeIsWellKeyed(cells: seq<Cell>, rank: Ref -> nat, s: Option<Ref>)
    requires Ranked(cells, rank) && WellKeyed(cells) && PlainScalars(cells)
    ensures JsonEquality.WellKeyed(Tree(cells, rank, s))
    decreases if s.Some? then rank(s.value) + 1 else 0, 1
  {
    hide Ranked, JsonEquality.AllWellKeyed, JsonEquality.FieldsWellKeyed;
    if s.Some? && s.value < |cells| && cells[s.value].Node? && !cells[s.value].body.Scalar? {
      var o, t := s.value, Tree(cells, rank, s);
      if cells[o].body.Array? {
        forall i | 0 <= i < |t.elems|
          ensures JsonEquality.WellKeyed(t.elems[i])
        {
          MemberIsWellKeyed(cells, rank, o, i);
          assert t.elems[i] == TreeOf(cells, rank, o, i);
        }
        AllKeyed(t.elems);
      } else {
        forall i | 0 <= i < |t.fields|
          ensures JsonEquality.WellKeyed(t.fields[i].val)
        {
          MemberIsWellKeyed(cells, rank, o, i);
          assert t.fields[i].val == TreeOf(cells, rank, o, i);
        }
        FieldsKeyed(t.fields);
        SameFieldKeys(cells[o].body.fields, t.fields);
      }
    }
  }

  lemma SameFieldKeys<V, W>(fs: seq<Pair<string, V>>, gs: seq<Pair<string, W>>)
    requires Distinct(fs) && |gs| == |fs| && forall i :: 0 <= i < |fs| ==> gs[i].key == fs[i].key
    ensures Distinct(gs)
  {
  }

  lemma {:induction false} MemberIsWellKeyed(cells: seq<Cell>, rank: Ref -> nat, o: Ref, i: nat)
    requires Ranked(cells, rank) && WellKeyed(cells) && PlainScalars(cells)
    requires o < |cells| && i < |Slots(cells[o])|
    ensures JsonEquality.WellKeyed(TreeOf(cells, rank, o, i))
    decreases rank(o) + 1, 0
  {
    hide Tree, JsonEquality.WellKeyed, WellKeyed, PlainScalars, Ranked, Slots;
    SlotRank(cells, rank, o, i);
    TreeIsWellKeyed(cells, rank, Slots(cells[o])[i]);
  }

  /**
   `json_object_equal` accepts a copy as equal to its source, whichever is asked first, exactly when there is
   no NaN.
   */
  lemma SameTreeIsEqual(d: JsonEquality.Reading, before: seq<Cell>, rank: Ref -> nat, src: Ref,
                        after: seq<Cell>, rank': Ref -> nat, dst: Option<Ref>)
    requires Ranked(before, rank) && WellKeyed(before) && PlainScalars(before) && Ranked(after, rank')
    requires Tree(after, rank', dst) == Tree(before, rank, Some(src))
    ensures var s, t := Tree(before, rank, Some(src)), Tree(after, rank', dst);
            && (JsonEquality.Equal(d, s, t) <==> JsonEquality.NoNaN(d, s))
            && (JsonEquality.Equal(d, t, s) <==> JsonEquality.NoNaN(d, s))
  {
    hide JsonEquality.Equal, JsonEquality.WellKeyed, JsonEquality.NoNaN, Tree, WellKeyed;
    TreeIsWellKeyed(before, rank, Some(src));
    var t := Tree(before, rank, Some(src));
    JsonEquality.EqualIsEquivalence(d, t, t, t);
  }
}
