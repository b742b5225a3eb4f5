/**
 The object graph behind json-c's reference counts: cells that hold a count and slots that point at
 other cells, and the handles the program outside holds. The conservation law says that a cell's
 count is exactly the slots plus the handles that name it.
 */
module RefGraph {
  import opened Basics
  import opened OrderedMap
  import opened JsonValue

  type Ref = nat

  /** A scalar carries its value; a container's members may be NULL, which is JSON null. */
  datatype Body =
    | Scalar(v: Json)
    | Array(elems: seq<Option<Ref>>)
    | Object(fields: seq<Pair<string, Option<Ref>>>)

  /** `Dying` is an object whose members are being let go of, just before its memory is freed. */
  datatype Cell = Gone | Dying | Node(rc: nat, body: Body)

  function Values(fields: seq<Pair<string, Option<Ref>>>): (vs: seq<Option<Ref>>)
    ensures |vs| == |fields| && forall i :: 0 <= i < |vs| ==> vs[i] == fields[i].val
  {
    if fields == [] then [] else [fields[0].val] + Values(fields[1..])
  }

  function Members(b: Body): seq<Option<Ref>> {
    match b
    case Scalar(_) => []
    case Array(elems) => elems
    case Object(fields) => Values(fields)
  }

  function Slots(c: Cell): seq<Option<Ref>> {
    if c.Node? then Members(c.body) else []
  }

  /** The cells a list of slots names, as often as it names them. */
  function Kids(slots: seq<Option<Ref>>): multiset<Ref> {
    if slots == [] then multiset{}
    else (if slots[0].Some? then multiset{slots[0].value} else multiset{}) + Kids(slots[1..])
  }

  /** How many slots name `r`. */
  function In(cells: seq<Cell>, r: Ref): nat {
    if cells == [] then 0 else In(cells[..|cells| - 1], r) + Kids(Slots(cells[|cells| - 1]))[r]
  }

  function Rc(cells: seq<Cell>, r: Ref): nat {
    if r < |cells| && cells[r].Node? then cells[r].rc else 0
  }

  /** The sum of all counts. */
  function Total(cells: seq<Cell>): nat {
    if cells == [] then 0 else Total(cells[..|cells| - 1]) + Rc(cells, |cells| - 1)
  }

  /** Every count is the number of slots and handles that name the cell, and no counted cell is unnamed. */
  ghost predicate Conserved(cells: seq<Cell>, handles: multiset<Ref>) {
    && (forall r: Ref :: In(cells, r) + handles[r] == Rc(cells, r))
    && (forall r: Ref :: r < |cells| && cells[r].Node? ==> cells[r].rc > 0)
  }

  /** Slots lead downwards, so the graph has no cycles. */
  ghost predicate Ranked(cells: seq<Cell>, rank: Ref -> nat) {
    forall r: Ref, i :: r < |cells| && 0 <= i < |Slots(cells[r])| && Slots(cells[r])[i].Some?
      ==> rank(Slots(cells[r])[i].value) < rank(r)
  }

  /** A chain of slots. */
  ghost predicate Path(cells: seq<Cell>, p: seq<Ref>) {
    && p != []
    && (forall i :: 0 <= i < |p| - 1 ==> p[i] < |cells| && Some(p[i + 1]) in Slots(cells[p[i]]))
  }

  ghost predicate Reached(cells: seq<Cell>, handles: multiset<Ref>, r: Ref) {
    exists p :: Path(cells, p) && handles[p[0]] > 0 && p[|p| - 1] == r
  }

  /** What letting go may do: whole cells disappear, and counts change. */
  ghost predicate Shrunk(before: seq<Cell>, after: seq<Cell>) {
    && |before| == |after|
    && (forall r :: 0 <= r < |before| ==>
          if before[r].Node? then after[r] == Gone || (after[r].Node? && after[r].body == before[r].body)
          else after[r] == before[r])
  }

  // ------------------------------------------------------------ counting slots

  lemma {:induction false} KidsHas(slots: seq<Option<Ref>>, r: Ref)
    ensures Kids(slots)[r] > 0 <==> Some(r) in slots
  {
    if slots != [] {
      KidsHas(slots[1..], r);
      assert slots == [slots[0]] + slots[1..];
    }
  }

  lemma {:induction false} KidsAppend(a: seq<Option<Ref>>, b: seq<Option<Ref>>)
    ensures Kids(a + b) == Kids(a) + Kids(b)
  {
    if a == [] {
      assert a + b == b;
    } else {
      assert (a + b)[1..] == a[1..] + b;
      KidsAppend(a[1..], b);
    }
  }

  function One(s: Option<Ref>): multiset<Ref> {
    if s.Some? then multiset{s.value} else multiset{}
  }

  lemma KidsOne(s: Option<Ref>)
    ensures Kids([s]) == One(s)
  {
    assert [s][1..] == [];
  }

  lemma KidsSplit(slots: seq<Option<Ref>>, i: nat)
    requires i < |slots|
    ensures Kids(slots) == Kids(slots[..i]) + One(slots[i]) + Kids(slots[i + 1..])
    ensures Kids(slots[i..]) == One(slots[i]) + Kids(slots[i + 1..])
  {
    hide Kids, One;
    assert slots == slots[..i] + ([slots[i]] + slots[i + 1..]);
    KidsAppend(slots[..i], [slots[i]] + slots[i + 1..]);
    KidsAppend([slots[i]], slots[i + 1..]);
    KidsOne(slots[i]);
    assert slots[i..] == [slots[i]] + slots[i + 1..];
  }

  lemma KidsUpdate(slots: seq<Option<Ref>>, i: nat, s: Option<Ref>)
    requires i < |slots|
    ensures Kids(slots[i := s]) + One(slots[i]) == Kids(slots) + One(s)
  {
    var t := slots[i := s];
    KidsSplit(slots, i);
    KidsSplit(t, i);
    assert t[..i] == slots[..i] && t[i + 1..] == slots[i + 1..];
  }

  lemma {:induction false} InUpdate(cells: seq<Cell>, i: nat, c: Cell, r: Ref)
    requires i < |cells|
    ensures In(cells[i := c], r) == In(cells, r) - Kids(Slots(cells[i]))[r] + Kids(Slots(c))[r]
  {
    hide Kids, Slots;
    var n := |cells| - 1;
    var t := cells[i := c];
    if i == n {
      assert t[..n] == cells[..n];
    } else {
      assert t[..n] == cells[..n][i := c];
      InUpdate(cells[..n], i, c, r);
    }
  }

  lemma InAppend(cells: seq<Cell>, c: Cell, r: Ref)
    ensures In(cells + [c], r) == In(cells, r) + Kids(Slots(c))[r]
  {
    assert (cells + [c])[..|cells|] == cells;
  }

  lemma {:induction false} TotalUpdate(cells: seq<Cell>, i: nat, c: Cell)
    requires i < |cells|
    ensures Total(cells[i := c]) == Total(cells) - Rc(cells, i) + (if c.Node? then c.rc else 0)
  {
    var n := |cells| - 1;
    var t := cells[i := c];
    if i == n {
      assert t[..n] == cells[..n];
    } else {
      assert t[..n] == cells[..n][i := c];
      TotalUpdate(cells[..n], i, c);
    }
  }

  /** A slot that names a cell is counted. */
  lemma {:induction false} SlotCounts(cells: seq<Cell>, p: Ref, r: Ref)
    requires p < |cells| && Some(r) in Slots(cells[p])
    ensures In(cells, r) > 0
  {
    hide Slots, Kids;
    var n := |cells| - 1;
    if p == n {
      KidsHas(Slots(cells[p]), r);
    } else {
      assert cells[..n][p] == cells[p];
      SlotCounts(cells[..n], p, r);
    }
  }

  /** What is counted is in a slot. */
  lemma {:induction false} CountedSlot(cells: seq<Cell>, r: Ref) returns (p: Ref)
    requires In(cells, r) > 0
    ensures p < |cells| && Some(r) in Slots(cells[p])
  {
    hide Slots, Kids;
    var n := |cells| - 1;
    if Kids(Slots(cells[n]))[r] > 0 {
      KidsHas(Slots(cells[n]), r);
      p := n;
    } else {
      p := CountedSlot(cells[..n], r);
      assert cells[..n][p] == cells[p];
    }
  }

  // ------------------------------------------------------------ live is reachable

  function MaxRank(cells: seq<Cell>, rank: Ref -> nat): (m: nat)
    ensures forall r: Ref :: r < |cells| ==> rank(r) <= m
  {
    if cells == [] then 0
    else
      var m := MaxRank(cells[..|cells| - 1], rank);
      if rank(|cells| - 1) > m then rank(|cells| - 1) else m
  }

  /** A counted cell is on a chain of slots that starts at a handle. */
  lemma {:induction false} LiveIsReached(cells: seq<Cell>, handles: multiset<Ref>, rank: Ref -> nat, r: Ref)
    requires Conserved(cells, handles) && Ranked(cells, rank) && r < |cells| && cells[r].Node?
    ensures Reached(cells, handles, r)
    decreases MaxRank(cells, rank) - rank(r)
  {
    hide Slots, In;
    if handles[r] > 0 {
      assert Path(cells, [r]);
    } else {
      var p := CountedSlot(cells, r);
      var i :| 0 <= i < |Slots(cells[p])| && Slots(cells[p])[i] == Some(r);
      assert rank(r) < rank(p);
      assert cells[p].Node? by {
        SlotsOfNode(cells[p]);
      }
      LiveIsReached(cells, handles, rank, p);
      var q :| Path(cells, q) && handles[q[0]] > 0 && q[|q| - 1] == p;
      var q' := q + [r];
      forall k | 0 <= k < |q'| - 1
        ensures q'[k] < |cells| && Some(q'[k + 1]) in Slots(cells[q'[k]])
      {
        if k < |q| - 1 {
          assert q'[k] == q[k] && q'[k + 1] == q[k + 1];
        }
      }
      assert Path(cells, q') && q'[0] == q[0];
    }
  }

  lemma SlotsOfNode(c: Cell)
    requires Slots(c) != []
    ensures c.Node?
  {
  }

  /** Along a chain that starts at a handle every cell is counted. */
  lemma {:induction false} ReachedIsLive(cells: seq<Cell>, handles: multiset<Ref>, p: seq<Ref>, i: nat)
    requires Conserved(cells, handles) && Path(cells, p) && handles[p[0]] > 0 && i < |p|
    ensures p[i] < |cells| && cells[p[i]].Node?
  {
    hide Slots, In, Path;
    if i == 0 {
      assert Rc(cells, p[0]) > 0;
    } else {
      assert p[i - 1] < |cells| && Some(p[i - 1 + 1]) in Slots(cells[p[i - 1]]) by {
        PathStep(cells, p, i - 1);
      }
      SlotCounts(cells, p[i - 1], p[i]);
      assert Rc(cells, p[i]) > 0;
    }
  }

  lemma PathStep(cells: seq<Cell>, p: seq<Ref>, i: nat)
    requires Path(cells, p) && i + 1 < |p|
    ensures p[i] < |cells| && Some(p[i + 1]) in Slots(cells[p[i]])
  {
  }

  /** In a conserved graph without cycles the live objects are exactly those some handle reaches. */
  lemma LiveExactly(cells: seq<Cell>, handles: multiset<Ref>, rank: Ref -> nat, r: Ref)
    requires Conserved(cells, handles) && Ranked(cells, rank)
    ensures r < |cells| && cells[r].Node? <==> Reached(cells, handles, r)
  {
    hide Conserved, Ranked;
    if r < |cells| && cells[r].Node? {
      LiveIsReached(cells, handles, rank, r);
    }
    if Reached(cells, handles, r) {
      var p :| Path(cells, p) && handles[p[0]] > 0 && p[|p| - 1] == r;
      ReachedIsLive(cells, handles, p, |p| - 1);
    }
  }

  lemma ShrunkKeepsRank(before: seq<Cell>, after: seq<Cell>, rank: Ref -> nat)
    requires Shrunk(before, after) && Ranked(before, rank)
    ensures Ranked(after, rank)
  {
    forall r: Ref | r < |after|
      ensures Slots(after[r]) == [] || Slots(after[r]) == Slots(before[r])
    {
    }
  }

  lemma ShrunkTrans(a: seq<Cell>, b: seq<Cell>, c: seq<Cell>)
    requires Shrunk(a, b) && Shrunk(b, c)
    ensures Shrunk(a, c)
  {
  }

  lemma {:induction false} SurvivesAlong(before: seq<Cell>, after: seq<Cell>, handles: multiset<Ref>, p: seq<Ref>,
      i: nat)
    requires Shrunk(before, after) && Conserved(after, handles)
    requires Path(before, p) && handles[p[0]] > 0 && i < |p|
    ensures p[i] < |after| && after[p[i]].Node?
  {
    hide In;
    if i == 0 {
      assert Rc(after, p[0]) > 0;
    } else {
      SurvivesAlong(before, after, handles, p, i - 1);
      PathStep(before, p, i - 1);
      assert Slots(after[p[i - 1]]) == Slots(before[p[i - 1]]);
      SlotCounts(after, p[i - 1], p[i]);
      assert Rc(after, p[i]) > 0;
    }
  }

  /** What survives a release is exactly what the remaining handles reach in the graph as it was. */
  lemma SurvivorsExactly(before: seq<Cell>, after: seq<Cell>, handles: multiset<Ref>, rank: Ref -> nat, r: Ref)
    requires Shrunk(before, after) && Conserved(after, handles) && Ranked(before, rank)
    ensures r < |after| && after[r].Node? <==> Reached(before, handles, r)
  {
    hide Conserved, Slots;
    if r < |after| && after[r].Node? {
      ShrunkKeepsRank(before, after, rank);
      LiveIsReached(after, handles, rank, r);
      var p :| Path(after, p) && handles[p[0]] > 0 && p[|p| - 1] == r;
      forall i | 0 <= i < |p| - 1
        ensures p[i] < |before| && Some(p[i + 1]) in Slots(before[p[i]])
      {
        PathStep(after, p, i);
        SlotsOfNode(after[p[i]]);
        SameBodySameSlots(after[p[i]], before[p[i]]);
      }
      assert Path(before, p);
    }
    if Reached(before, handles, r) {
      var p :| Path(before, p) && handles[p[0]] > 0 && p[|p| - 1] == r;
      SurvivesAlong(before, after, handles, p, |p| - 1);
    }
  }

  lemma SameBodySameSlots(c: Cell, d: Cell)
    requires c.Node? && d.Node? && c.body == d.body
    ensures Slots(c) == Slots(d)
  {
  }

  // ------------------------------------------------------------ single changes

  lemma HeldIsNode(cells: seq<Cell>, handles: multiset<Ref>, r: Ref)
    requires Conserved(cells, handles) && handles[r] > 0
    ensures r < |cells| && cells[r].Node? && cells[r].rc > 0
  {
    hide In;
    assert In(cells, r) + handles[r] == Rc(cells, r);
  }

  /** Letting go of one of several holds on an object: its count goes down. */
  lemma LetGo(cells: seq<Cell>, handles: multiset<Ref>, r: Ref)
    requires Conserved(cells, handles) && handles[r] > 0 && r < |cells| && cells[r].Node? && cells[r].rc > 1
    ensures var t := cells[r := Node(cells[r].rc - 1, cells[r].body)];
            Conserved(t, handles - multiset{r}) && Total(t) < Total(cells)
  {
    hide In, Kids, Slots, Total;
    var c := Node(cells[r].rc - 1, cells[r].body);
    TotalUpdate(cells, r, c);
    SameBodySameSlots(c, cells[r]);
    forall x: Ref
      ensures In(cells[r := c], x) == In(cells, x)
    {
      InUpdate(cells, r, c, x);
    }
  }

  /** Letting go of the last: the object's slots become the handles of its teardown. */
  lemma LastLetGo(cells: seq<Cell>, handles: multiset<Ref>, r: Ref)
    requires Conserved(cells, handles) && handles[r] > 0 && r < |cells| && cells[r].Node? && cells[r].rc == 1
    ensures var t := cells[r := Dying];
            Conserved(t, handles - multiset{r} + Kids(Slots(cells[r]))) && Total(t) < Total(cells)
  {
    hide In, Kids, Total;
    TotalUpdate(cells, r, Dying);
    NoKids();
    forall x: Ref
      ensures In(cells[r := Dying], x) == In(cells, x) - Kids(Slots(cells[r]))[x]
    {
      InUpdate(cells, r, Dying, x);
    }
  }

  lemma NoKids()
    ensures Kids([]) == multiset{}
  {
  }

  /** Cells without slots and counts can stand for each other. */
  lemma Buried(cells: seq<Cell>, handles: multiset<Ref>, r: Ref)
    requires Conserved(cells, handles) && r < |cells| && cells[r] == Dying
    ensures Conserved(cells[r := Gone], handles) && Total(cells[r := Gone]) == Total(cells)
  {
    hide In, Kids;
    TotalUpdate(cells, r, Gone);
    forall x: Ref
      ensures In(cells[r := Gone], x) == In(cells, x)
    {
      InUpdate(cells, r, Gone, x);
    }
  }

  /** What goes out of an object's slots comes into the handles, and the other way round. */
  lemma Rebodied(cells: seq<Cell>, handles: multiset<Ref>, o: Ref, body: Body, handles': multiset<Ref>)
    requires Conserved(cells, handles) && o < |cells| && cells[o].Node?
    requires handles' + Kids(Slots(Node(cells[o].rc, body))) == handles + Kids(Slots(cells[o]))
    ensures Conserved(cells[o := Node(cells[o].rc, body)], handles')
  {
    hide In, Kids, Slots;
    var c := Node(cells[o].rc, body);
    forall x: Ref
      ensures In(cells[o := c], x) + handles'[x] == Rc(cells[o := c], x)
    {
      InUpdate(cells, o, c, x);
      assert (handles' + Kids(Slots(c)))[x] == (handles + Kids(Slots(cells[o])))[x];
      assert Rc(cells[o := c], x) == Rc(cells, x);
      assert In(cells, x) + handles[x] == Rc(cells, x);
    }
  }

  lemma Allocated(cells: seq<Cell>, handles: multiset<Ref>, c: Cell)
    requires Conserved(cells, handles) && c.Node? && c.rc == 1 && Slots(c) == []
    ensures Conserved(cells + [c], handles + multiset{|cells|})
  {
    hide In, Kids, Slots;
    NoKids();
    assert In(cells, |cells|) + handles[|cells|] == Rc(cells, |cells|);
    forall x: Ref
      ensures In(cells + [c], x) == In(cells, x)
      ensures Rc(cells + [c], x) == if x == |cells| then 1 else Rc(cells, x)
    {
      InAppend(cells, c, x);
    }
  }

  lemma Shared(cells: seq<Cell>, handles: multiset<Ref>, r: Ref)
    requires Conserved(cells, handles) && r < |cells| && cells[r].Node?
    ensures Conserved(cells[r := Node(cells[r].rc + 1, cells[r].body)], handles + multiset{r})
  {
    hide In, Kids;
    var c := Node(cells[r].rc + 1, cells[r].body);
    forall x: Ref
      ensures In(cells[r := c], x) == In(cells, x)
    {
      InUpdate(cells, r, c, x);
    }
  }

  // ------------------------------------------------------------ keeping clear of cycles

  ghost predicate Reaches(cells: seq<Cell>, a: Ref, b: Ref) {
    exists p :: Path(cells, p) && p[0] == a && p[|p| - 1] == b
  }

  /** Every slot there is was there before. */
  ghost predicate Thinner(before: seq<Cell>, after: seq<Cell>) {
    forall r: Ref, s: Ref :: r < |after| && Some(s) in Slots(after[r]) ==> r < |before| && Some(s) in Slots(before[r])
  }

  lemma ThinnerReaches(before: seq<Cell>, after: seq<Cell>, a: Ref, b: Ref)
    requires Thinner(before, after) && Reaches(after, a, b)
    ensures Reaches(before, a, b)
  {
    hide Slots;
    var p :| Path(after, p) && p[0] == a && p[|p| - 1] == b;
    forall i | 0 <= i < |p| - 1
      ensures p[i] < |before| && Some(p[i + 1]) in Slots(before[p[i]])
    {
      PathStep(after, p, i);
    }
    assert Path(before, p);
  }

  /** A ranking that makes room for a new slot of `o` that names `val`. */
  ghost function Raised(cells: seq<Cell>, rank: Ref -> nat, o: Ref, val: Ref): Ref -> nat {
    x => if Reaches(cells, x, o) then rank(x) + rank(val) + 1 else rank(x)
  }

  lemma StepReaches(cells: seq<Cell>, r: Ref, s: Ref, o: Ref)
    requires r < |cells| && Some(s) in Slots(cells[r]) && Reaches(cells, s, o)
    ensures Reaches(cells, r, o)
  {
    hide Slots;
    var p :| Path(cells, p) && p[0] == s && p[|p| - 1] == o;
    var q := [r] + p;
    forall i | 0 <= i < |q| - 1
      ensures q[i] < |cells| && Some(q[i + 1]) in Slots(cells[q[i]])
    {
      if i > 0 {
        assert q[i] == p[i - 1] && q[i + 1] == p[i - 1 + 1];
      }
    }
    assert Path(cells, q) && q[0] == r && q[|q| - 1] == o;
  }

  /** A slot that closes no cycle keeps the graph free of them. */
  lemma RaisedRanks(cells: seq<Cell>, after: seq<Cell>, rank: Ref -> nat, o: Ref, val: Ref)
    requires Ranked(cells, rank) && !Reaches(cells, val, o) && |after| == |cells|
    requires forall r: Ref, s: Ref :: r < |after| && Some(s) in Slots(after[r]) ==>
               Some(s) in Slots(cells[r]) || (r == o && s == val)
    ensures Ranked(after, Raised(cells, rank, o, val))
  {
    hide Slots;
    var rank' := Raised(cells, rank, o, val);
    forall r: Ref, i | r < |after| && 0 <= i < |Slots(after[r])| && Slots(after[r])[i].Some?
      ensures rank'(Slots(after[r])[i].value) < rank'(r)
    {
      var s := Slots(after[r])[i].value;
      assert Some(s) in Slots(after[r]);
      if Some(s) in Slots(cells[r]) {
        var j :| 0 <= j < |Slots(cells[r])| && Slots(cells[r])[j] == Some(s);
        assert rank(s) < rank(r);
        if Reaches(cells, s, o) {
          StepReaches(cells, r, s, o);
        }
      } else {
        assert Path(cells, [o]);
        assert Reaches(cells, o, o) by {
          assert [o][0] == o && [o][|[o]| - 1] == o;
        }
      }
    }
  }
}
