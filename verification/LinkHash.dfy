/**
 linkhash.c: an open-addressing table with tombstones whose live entries are also threaded
 on a doubly linked list in insertion order. Every operation is proved against the ordered
 map the list shows, through growth, replacement and deletion.
 */
module LinkHash {
  import opened Basics
  import opened OrderedMap

  /** `LH_EMPTY` and `LH_FREED` as keys, or a live entry; -1 is the null link. */
  datatype Entry<K, V> = Empty | Freed | Live(k: K, constant: bool, v: V, next: int, prev: int)

  function Home<K>(hash: K -> nat, k: K, size: int): (h: int)
    requires size > 0
    ensures 0 <= h < size
  {
    hash(k) % size
  }

  /** The slot `d` steps after `home`, wrapping once. */
  function At(home: int, d: int, size: int): int {
    if home + d < size then home + d else home + d - size
  }

  /** How many steps it takes from `home` to slot `n`. */
  function Steps(home: int, n: int, size: int): int {
    if n >= home then n - home else n - home + size
  }

  // ------------------------------------------------------------ what a table has to satisfy

  ghost predicate InRange(order: seq<int>, size: int) {
    forall i :: 0 <= i < |order| ==> 0 <= order[i] < size
  }

  ghost predicate NoRepeats(order: seq<int>) {
    forall i, j :: 0 <= i < j < |order| ==> order[i] != order[j]
  }

  /** The list holds exactly the live slots. */
  ghost predicate ListsLive<K, V>(table: seq<Entry<K, V>>, order: seq<int>) {
    && InRange(order, |table|)
    && NoRepeats(order)
    && (forall i :: 0 <= i < |order| ==> table[order[i]].Live?)
    && (forall n :: 0 <= n < |table| && table[n].Live? ==> n in order)
  }

  function LinkAfter(order: seq<int>, i: int): int {
    if 0 <= i + 1 < |order| then order[i + 1] else -1
  }

  function LinkBefore(order: seq<int>, i: int): int {
    if 0 < i <= |order| then order[i - 1] else -1
  }

  ghost predicate Linked<K, V>(table: seq<Entry<K, V>>, order: seq<int>)
    requires ListsLive(table, order)
  {
    forall i :: 0 <= i < |order| ==>
      table[order[i]].next == LinkAfter(order, i) && table[order[i]].prev == LinkBefore(order, i)
  }

  ghost predicate DistinctLive<K, V>(table: seq<Entry<K, V>>) {
    forall m, n :: 0 <= m < |table| && 0 <= n < |table| && table[m].Live? && table[n].Live? && table[m].k == table[n].k
      ==> m == n
  }

  /** No slot between a live key's home and its slot is empty. */
  ghost predicate Reachable<K, V>(table: seq<Entry<K, V>>, hash: K -> nat) {
    forall n, d :: 0 <= n < |table| && table[n].Live? && 0 <= d < Steps(Home(hash, table[n].k, |table|), n, |table|)
      ==> table[At(Home(hash, table[n].k, |table|), d, |table|)] != Empty
  }

  /** The ordered map that walking the list from head to tail shows. */
  ghost function Walk<K, V>(table: seq<Entry<K, V>>, order: seq<int>): (ps: seq<Pair<K, V>>)
    requires ListsLive(table, order)
    ensures |ps| == |order|
    ensures forall i :: 0 <= i < |ps| ==> ps[i] == Pair(table[order[i]].k, table[order[i]].v)
  {
    seq(|order|, i requires 0 <= i < |order| => Pair(table[order[i]].k, table[order[i]].v))
  }

  /** Everything an lh_table keeps. */
  ghost predicate TableOk<K, V>(table: seq<Entry<K, V>>, order: seq<int>, hash: K -> nat) {
    && ListsLive(table, order)
    && Linked(table, order)
    && DistinctLive(table)
    && Reachable(table, hash)
  }

  /** The growth test of an insert, with 0.66 as 33/50. */
  predicate Crowded(count: int, size: int) {
    50 * count >= 33 * size
  }

  /** The load factor, as the code compares with it. */
  lemma LoadFactor(count: int, size: int)
    ensures Crowded(count, size) <==> count as real >= size as real * 0.66
  {
    assert 50.0 * (size as real * 0.66) == 33.0 * size as real;
  }

  /**
   Inserts keep this: with one entry less the table would not be crowded. (Growing from just under
   INT_MAX to INT_MAX can stay crowded, but a table of that size is never grown again.)
   */
  predicate Roomy(count: int, size: int) {
    0 <= count <= size && (size == INT_MAX || Fits(count, size))
  }

  /** Entering this many entries one by one never finds a table of this size crowded. */
  predicate Fits(count: int, size: int) {
    count <= 0 || !Crowded(count - 1, size)
  }

  lemma NoneFits(size: int)
    ensures Fits(0, size)
  {
  }

  /** A new table has grown as soon as the entries so far do not fit its first size. */
  lemma SizeAfter(i: nat, count: int, newSize: int, size: int)
    requires i < count && 0 < newSize <= size <= INT_MAX && (size == newSize <==> Fits(i, newSize))
    ensures Crowded(i, size) ==> !Fits(count, newSize) && (size == INT_MAX ==> !Fits(count, INT_MAX))
    ensures var next := if Crowded(i, size) && size < INT_MAX then Grown(size) else size;
            !(Crowded(i, size) && size == INT_MAX) ==> newSize <= next && (next == newSize <==> Fits(i + 1, newSize))
  {
  }

  /** The size a crowded table grows to. */
  function Grown(size: int): int {
    if size > INT_MAX / 2 then INT_MAX else size * 2
  }

  // ------------------------------------------------------------ counting

  ghost function Below(size: nat): (s: set<int>)
    ensures |s| == size && forall n :: n in s <==> 0 <= n < size
  {
    if size == 0 then {} else Below(size - 1) + {size - 1}
  }

  lemma {:induction false} Elements(order: seq<int>, s: set<int>)
    requires forall x :: x in s ==> x in order
    ensures |s| <= |order|
    decreases |order|
  {
    if order == [] {
      assert forall x :: x in s ==> x in order;
      assert s == {};
    } else {
      var last := |order| - 1;
      forall x | x in s - {order[last]}
        ensures x in order[..last]
      {
        var i :| 0 <= i < |order| && order[i] == x;
        assert order[..last][i] == x;
      }
      Elements(order[..last], s - {order[last]});
    }
  }

  /** A table with fewer entries than slots has a free slot, so a probe ends. */
  lemma FreeSlot<K, V>(table: seq<Entry<K, V>>, order: seq<int>) returns (n: nat)
    requires ListsLive(table, order) && |order| < |table|
    ensures n < |table| && !table[n].Live?
  {
    if forall n :: 0 <= n < |table| ==> table[n].Live? {
      Elements(order, Below(|table|));
    }
    n :| n < |table| && !table[n].Live?;
  }

  /** Every slot is some number of steps from a home. */
  lemma StepsReach(home: int, n: int, size: int)
    requires 0 <= home < size && 0 <= n < size
    ensures 0 <= Steps(home, n, size) < size && At(home, Steps(home, n, size), size) == n
  {
  }

  lemma StepsUnique(home: int, d: int, size: int)
    requires 0 <= home < size && 0 <= d < size
    ensures 0 <= At(home, d, size) < size && Steps(home, At(home, d, size), size) == d
  {
  }

  // ------------------------------------------------------------ what each operation does to the slots

  /** A slot that is not live, behind slots that are not empty. */
  ghost predicate CanTake<K, V>(table: seq<Entry<K, V>>, hash: K -> nat, k: K, n: int) {
    && 0 <= n < |table| && !table[n].Live?
    && (forall d :: 0 <= d < Steps(Home(hash, k, |table|), n, |table|) ==>
          table[At(Home(hash, k, |table|), d, |table|)] != Empty)
  }

  function Last(order: seq<int>): int {
    if order == [] then -1 else order[|order| - 1]
  }

  /** The slots after an insert at `n`. */
  function Inserted<K, V>(table: seq<Entry<K, V>>, order: seq<int>, n: int, k: K, constant: bool, v: V): seq<Entry<K,
      V>>
    requires 0 <= n < |table|
    requires order != [] ==> 0 <= Last(order) < |table| && table[Last(order)].Live?
  {
    var t := if order == [] then table else table[Last(order) := table[Last(order)].(next := n)];
    t[n := Live(k, constant, v, -1, Last(order))]
  }

  lemma InsertedLists<K, V>(table: seq<Entry<K, V>>, order: seq<int>, n: int, k: K, constant: bool, v: V)
    requires ListsLive(table, order) && 0 <= n < |table| && !table[n].Live?
    ensures ListsLive(Inserted(table, order, n, k, constant, v), order + [n])
  {
    var t, o := Inserted(table, order, n, k, constant, v), order + [n];
    forall m | 0 <= m < |t| && t[m].Live?
      ensures m in o
    {
      if m != n {
        assert table[m].Live? && m in order;
      }
    }
    assert n !in order;
  }

  lemma InsertedLinks<K, V>(table: seq<Entry<K, V>>, order: seq<int>, n: int, k: K, constant: bool, v: V)
    requires ListsLive(table, order) && Linked(table, order) && 0 <= n < |table| && !table[n].Live?
    requires ListsLive(Inserted(table, order, n, k, constant, v), order + [n])
    ensures Linked(Inserted(table, order, n, k, constant, v), order + [n])
  {
    var t, o := Inserted(table, order, n, k, constant, v), order + [n];
    forall i | 0 <= i < |o|
      ensures t[o[i]].next == LinkAfter(o, i) && t[o[i]].prev == LinkBefore(o, i)
    {
      if i < |order| {
        assert o[i] == order[i] && table[order[i]].Live?;
        if i < |order| - 1 {
          assert order[i] != order[|order| - 1];
        }
      }
    }
  }

  lemma HasLive<K, V>(table: seq<Entry<K, V>>, order: seq<int>, k: K)
    requires ListsLive(table, order)
    ensures Has(Walk(table, order), k) <==> exists m :: 0 <= m < |table| && table[m].Live? && table[m].k == k
  {
    var ps := Walk(table, order);
    if Has(ps, k) {
      assert table[order[Find(ps, k)]].k == k;
    } else {
      forall m | 0 <= m < |table| && table[m].Live?
        ensures table[m].k != k
      {
        var i :| 0 <= i < |order| && order[i] == m;
        assert ps[i].key == table[m].k;
      }
    }
  }

  lemma InsertedReaches<K, V>(table: seq<Entry<K, V>>, order: seq<int>, hash: K -> nat, n: int, k: K, constant: bool,
      v: V)
    requires ListsLive(table, order) && DistinctLive(table) && Reachable(table, hash) && CanTake(table, hash, k, n)
    ensures DistinctLive(Inserted(table, order, n, k, constant, v)) <==> !Has(Walk(table, order), k)
    ensures Reachable(Inserted(table, order, n, k, constant, v), hash)
  {
    var t := Inserted(table, order, n, k, constant, v);
    HasLive(table, order, k);
    if Has(Walk(table, order), k) {
      var m :| 0 <= m < |table| && table[m].Live? && table[m].k == k;
      assert t[m].Live? && t[m].k == k && t[n].Live? && t[n].k == k && m != n;
    }
    assert forall m :: 0 <= m < |t| && m != n ==>
      t[m].Live? == table[m].Live? && (t[m].Live? ==> t[m].k == table[m].k) && (t[m] == Empty <==> table[m] == Empty);
  }

  /**
   An insert appends its pair to what the list shows and keeps everything else a table keeps,
   except that a key the table already has is then in it twice.
   */
  lemma InsertKeeps<K, V>(table: seq<Entry<K, V>>, order: seq<int>, hash: K -> nat, n: int, k: K, constant: bool, v: V)
    requires TableOk(table, order, hash) && CanTake(table, hash, k, n)
    ensures ListsLive(Inserted(table, order, n, k, constant, v), order + [n])
    ensures TableOk(Inserted(table, order, n, k, constant, v), order + [n], hash) <==> !Has(Walk(table, order), k)
    ensures Walk(Inserted(table, order, n, k, constant, v), order + [n]) == Walk(table, order) + [Pair(k, v)]
  {
    hide DistinctLive, Linked, Reachable, Walk, Has, Inserted, ListsLive;
    InsertedLists(table, order, n, k, constant, v);
    InsertedLinks(table, order, n, k, constant, v);
    InsertedReaches(table, order, hash, n, k, constant, v);
    InsertedWalk(table, order, n, k, constant, v);
  }

  lemma InsertedWalk<K, V>(table: seq<Entry<K, V>>, order: seq<int>, n: int, k: K, constant: bool, v: V)
    requires ListsLive(table, order) && 0 <= n < |table| && !table[n].Live?
    requires ListsLive(Inserted(table, order, n, k, constant, v), order + [n])
    ensures Walk(Inserted(table, order, n, k, constant, v), order + [n]) == Walk(table, order) + [Pair(k, v)]
  {
    var t, o := Inserted(table, order, n, k, constant, v), order + [n];
    forall i | 0 <= i < |o|
      ensures Walk(t, o)[i] == (Walk(table, order) + [Pair(k, v)])[i]
    {
      if i < |order| {
        assert o[i] == order[i] && table[order[i]].Live?;
      }
    }
  }

  /** What a delete of the i-th listed entry leaves in slot `m`. */
  ghost function Left<K, V>(table: seq<Entry<K, V>>, order: seq<int>, i: nat, m: int): Entry<K, V>
    requires ListsLive(table, order) && i < |order| && 0 <= m < |table|
  {
    if m == order[i] then Freed
    else if i > 0 && m == order[i - 1] then table[m].(next := LinkAfter(order, i))
    else if i + 1 < |order| && m == order[i + 1] then table[m].(prev := LinkBefore(order, i))
    else table[m]
  }

  ghost function Deleted<K, V>(table: seq<Entry<K, V>>, order: seq<int>, i: nat): (t: seq<Entry<K, V>>)
    requires ListsLive(table, order) && i < |order|
    ensures |t| == |table| && forall m :: 0 <= m < |t| ==> t[m] == Left(table, order, i, m)
  {
    seq(|table|, m requires 0 <= m < |table| => Left(table, order, i, m))
  }

  function Without(order: seq<int>, i: nat): seq<int>
    requires i < |order|
  {
    order[..i] + order[i + 1..]
  }

  lemma WithoutAt(order: seq<int>, i: nat)
    requires i < |order|
    ensures |Without(order, i)| == |order| - 1
    ensures forall j :: 0 <= j < |order| - 1 ==> Without(order, i)[j] == order[Before(i, j)]
  {
  }

  lemma WithoutEnds(order: seq<int>, i: nat)
    requires i < |order|
    ensures var o := Without(order, i);
            && (o == [] <==> |order| == 1)
            && (o != [] ==> o[0] == (if i == 0 then order[1] else order[0]))
            && Last(o) == (if i == |order| - 1 then LinkBefore(order, i) else Last(order))
  {
  }

  /** A delete leaves a tombstone and touches only the links of the neighbours. */
  lemma DeletedSlots<K, V>(table: seq<Entry<K, V>>, order: seq<int>, i: nat)
    requires ListsLive(table, order) && i < |order|
    ensures |Deleted(table, order, i)| == |table| && Deleted(table, order, i)[order[i]] == Freed
    ensures forall m :: 0 <= m < |table| && m != order[i] ==>
              var a, b := table[m], Deleted(table, order, i)[m];
              && (a == Empty <==> b == Empty) && a.Live? == b.Live?
              && (a.Live? ==> b.k == a.k && b.v == a.v)
  {
  }

  lemma DeletedLists<K, V>(table: seq<Entry<K, V>>, order: seq<int>, i: nat)
    requires ListsLive(table, order) && i < |order|
    ensures ListsLive(Deleted(table, order, i), Without(order, i))
  {
    hide Deleted, Left;
    DeletedSlots(table, order, i);
    WithoutAt(order, i);
    var t, o := Deleted(table, order, i), Without(order, i);
    assert forall j :: 0 <= j < |o| ==> o[j] == order[Before(i, j)] && o[j] != order[i];
    forall m | 0 <= m < |t| && t[m].Live?
      ensures m in o
    {
      var j :| 0 <= j < |order| && order[j] == m;
      assert o[if j < i then j else j - 1] == m;
    }
  }

  lemma DeletedLink<K, V>(table: seq<Entry<K, V>>, order: seq<int>, i: nat, b: nat)
    requires ListsLive(table, order) && i < |order| && b < |order| && b != i
    ensures |Deleted(table, order, i)| == |table|
    ensures var e := Deleted(table, order, i)[order[b]];
            && e.Live?
            && e.next == (if b == i - 1 then LinkAfter(order, i) else table[order[b]].next)
            && e.prev == (if b == i + 1 then LinkBefore(order, i) else table[order[b]].prev)
  {
    assert Deleted(table, order, i)[order[b]] == Left(table, order, i, order[b]);
    assert order[b] != order[i];
    assert i > 0 && b != i - 1 ==> order[b] != order[i - 1];
    assert i + 1 < |order| && b != i + 1 ==> order[b] != order[i + 1];
  }

  /** The links of a listed entry lead to live neighbours. */
  lemma Neighbours<K, V>(table: seq<Entry<K, V>>, order: seq<int>, i: nat)
    requires ListsLive(table, order) && Linked(table, order) && i < |order|
    ensures 0 <= order[i] < |table|
    ensures var e := table[order[i]];
            && e.Live? && e.next == LinkAfter(order, i) && e.prev == LinkBefore(order, i)
            && (i + 1 < |order| ==> 0 <= e.next < |table| && table[e.next].Live? && e.next != order[i])
            && (i > 0 ==> 0 <= e.prev < |table| && table[e.prev].Live? && e.prev != order[i])
            && (0 < i < |order| - 1 ==> e.prev != e.next)
    ensures order[0] == order[i] <==> i == 0
    ensures Last(order) == order[i] <==> i == |order| - 1
  {
  }

  lemma DeletedLinkAt<K, V>(table: seq<Entry<K, V>>, order: seq<int>, i: nat, j: nat)
    requires ListsLive(table, order) && Linked(table, order) && i < |order| && j < |order| - 1
    ensures 0 <= Without(order, i)[j] < |table|
    ensures var e := Deleted(table, order, i)[Without(order, i)[j]];
            && e.Live?
            && e.next == LinkAfter(Without(order, i), j) && e.prev == LinkBefore(Without(order, i), j)
  {
    hide ListsLive, Linked, Deleted, Without;
    var o, b := Without(order, i), Before(i, j);
    WithoutAt(order, i);
    DeletedLink(table, order, i, b);
    Neighbours(table, order, b);
    assert o[j] == order[b];
    assert j + 1 < |o| ==> o[j + 1] == order[Before(i, j + 1)];
    assert j > 0 ==> o[j - 1] == order[Before(i, j - 1)];
  }

  lemma DeletedLinks<K, V>(table: seq<Entry<K, V>>, order: seq<int>, i: nat)
    requires ListsLive(table, order) && Linked(table, order) && i < |order|
    requires ListsLive(Deleted(table, order, i), Without(order, i))
    ensures Linked(Deleted(table, order, i), Without(order, i))
  {
    hide ListsLive, Deleted, Without, LinkAfter, LinkBefore;
    WithoutAt(order, i);
    forall j | 0 <= j < |order| - 1
      ensures 0 <= Without(order, i)[j] < |table|
      ensures var e := Deleted(table, order, i)[Without(order, i)[j]];
              && e.Live? && e.next == LinkAfter(Without(order, i), j) && e.prev == LinkBefore(Without(order, i), j)
    {
      DeletedLinkAt(table, order, i, j);
    }
  }

  lemma DeletedReaches<K, V>(table: seq<Entry<K, V>>, order: seq<int>, hash: K -> nat, i: nat)
    requires ListsLive(table, order) && DistinctLive(table) && Reachable(table, hash) && i < |order|
    ensures DistinctLive(Deleted(table, order, i)) && Reachable(Deleted(table, order, i), hash)
  {
    hide Deleted, Left;
    DeletedSlots(table, order, i);
    var t := Deleted(table, order, i);
    assert forall m :: 0 <= m < |t| && t[m].Live? ==> table[m].Live? && t[m].k == table[m].k;
    assert forall m :: 0 <= m < |t| && t[m] == Empty ==> table[m] == Empty;
  }

  lemma DeletedWalk<K, V>(table: seq<Entry<K, V>>, order: seq<int>, i: nat)
    requires ListsLive(table, order) && i < |order|
    requires ListsLive(Deleted(table, order, i), Without(order, i))
    ensures Walk(Deleted(table, order, i), Without(order, i)) == Walk(table, order)[..i] + Walk(table, order)[i + 1..]
  {
    hide Deleted, Left, Without;
    DeletedSlots(table, order, i);
    WithoutAt(order, i);
    var t, o := Deleted(table, order, i), Without(order, i);
    forall j | 0 <= j < |o|
      ensures Walk(t, o)[j] == (Walk(table, order)[..i] + Walk(table, order)[i + 1..])[j]
    {
      assert o[j] == order[Before(i, j)] && o[j] != order[i];
    }
  }

  /** A delete takes its pair out of the ordered map and keeps everything else a table keeps. */
  lemma DeleteKeeps<K, V>(table: seq<Entry<K, V>>, order: seq<int>, hash: K -> nat, i: nat)
    requires TableOk(table, order, hash) && i < |order|
    ensures TableOk(Deleted(table, order, i), Without(order, i), hash)
    ensures Walk(Deleted(table, order, i), Without(order, i)) == Walk(table, order)[..i] + Walk(table, order)[i + 1..]
  {
    hide Deleted, Linked, Without, Reachable, DistinctLive, ListsLive;
    DeletedLists(table, order, i);
    DeletedLinks(table, order, i);
    DeletedReaches(table, order, hash, i);
    DeletedWalk(table, order, i);
  }

  function Revalued<K, V>(table: seq<Entry<K, V>>, n: int, v: V): seq<Entry<K, V>>
    requires 0 <= n < |table| && table[n].Live?
  {
    table[n := table[n].(v := v)]
  }

  lemma RevaluedLists<K, V>(table: seq<Entry<K, V>>, order: seq<int>, i: nat, v: V)
    requires ListsLive(table, order) && Linked(table, order) && i < |order|
    ensures ListsLive(Revalued(table, order[i], v), order) && Linked(Revalued(table, order[i], v), order)
    ensures Walk(Revalued(table, order[i], v), order) == Walk(table, order)[i := Pair(table[order[i]].k, v)]
  {
    assert forall j :: 0 <= j < |order| && j != i ==> order[j] != order[i];
  }

  lemma RevaluedReaches<K, V>(table: seq<Entry<K, V>>, hash: K -> nat, n: int, v: V)
    requires DistinctLive(table) && Reachable(table, hash) && 0 <= n < |table| && table[n].Live?
    ensures DistinctLive(Revalued(table, n, v)) && Reachable(Revalued(table, n, v), hash)
  {
    var t := Revalued(table, n, v);
    assert forall m :: 0 <= m < |t| ==> t[m].Live? == table[m].Live? && (t[m].Live? ==> t[m].k == table[m].k);
    assert forall m :: 0 <= m < |t| && t[m] == Empty ==> table[m] == Empty;
  }

  /** Changing a value in place changes that pair only. */
  lemma SetValKeeps<K, V>(table: seq<Entry<K, V>>, order: seq<int>, hash: K -> nat, i: nat, v: V)
    requires TableOk(table, order, hash) && i < |order|
    ensures TableOk(Revalued(table, order[i], v), order, hash)
    ensures Walk(Revalued(table, order[i], v), order) == Walk(table, order)[i := Pair(table[order[i]].k, v)]
  {
    hide Linked, DistinctLive, Reachable, Revalued, Walk;
    RevaluedLists(table, order, i, v);
    RevaluedReaches(table, hash, order[i], v);
  }

  // ------------------------------------------------------------ lookups in the walk

  lemma WalkDistinct<K, V>(table: seq<Entry<K, V>>, order: seq<int>)
    requires ListsLive(table, order) && DistinctLive(table)
    ensures Distinct(Walk(table, order))
  {
    var ps := Walk(table, order);
    forall i, j | 0 <= i < j < |ps|
      ensures ps[i].key != ps[j].key
    {
      assert order[i] != order[j];
    }
  }

  /** The place of a live slot on the list is where the ordered map has its key. */
  lemma FoundAt<K, V>(table: seq<Entry<K, V>>, order: seq<int>, n: int) returns (i: nat)
    requires ListsLive(table, order) && DistinctLive(table) && 0 <= n < |table| && table[n].Live?
    ensures i < |order| && order[i] == n && Find(Walk(table, order), table[n].k) == i
  {
    i :| 0 <= i < |order| && order[i] == n;
    WalkDistinct(table, order);
    FindUnique(Walk(table, order), i);
  }

  lemma NotFound<K, V>(table: seq<Entry<K, V>>, order: seq<int>, k: K)
    requires ListsLive(table, order)
    requires forall n :: 0 <= n < |table| && table[n].Live? ==> table[n].k != k
    ensures !Has(Walk(table, order), k)
  {
  }

  /** No live entry on the first `d` slots of the probe has the key. */
  ghost predicate Missed<K, V>(table: seq<Entry<K, V>>, home: int, d: int, k: K)
    requires 0 <= home < |table| && 0 <= d <= |table|
  {
    forall e :: 0 <= e < d && table[At(home, e, |table|)].Live? ==> table[At(home, e, |table|)].k != k
  }

  /** A probe that has met an empty slot, or gone all the way round, has not overlooked the key. */
  lemma ProbeEnds<K, V>(table: seq<Entry<K, V>>, order: seq<int>, hash: K -> nat, k: K, d: int)
    requires ListsLive(table, order) && Reachable(table, hash) && |table| > 0 && 0 <= d <= |table|
    requires Missed(table, Home(hash, k, |table|), d, k)
    requires d == |table| || table[At(Home(hash, k, |table|), d, |table|)] == Empty
    ensures !Has(Walk(table, order), k)
  {
    var home := Home(hash, k, |table|);
    forall m | 0 <= m < |table| && table[m].Live?
      ensures table[m].k != k
    {
      StepsReach(home, m, |table|);
      var e := Steps(home, m, |table|);
      assert At(home, e, |table|) == m;
    }
    NotFound(table, order, k);
  }

  /** What an insert's probe ends on. */
  lemma ProbeTakes<K, V>(table: seq<Entry<K, V>>, hash: K -> nat, k: K, d: int)
    requires 0 <= d < |table| && forall e :: 0 <= e < d ==> table[At(Home(hash, k, |table|), e, |table|)].Live?
    requires !table[At(Home(hash, k, |table|), d, |table|)].Live?
    ensures CanTake(table, hash, k, At(Home(hash, k, |table|), d, |table|))
  {
    StepsUnique(Home(hash, k, |table|), d, |table|);
  }

  lemma EndsLive<K, V>(table: seq<Entry<K, V>>, order: seq<int>)
    requires ListsLive(table, order) && order != []
    ensures 0 <= order[0] < |table| && table[order[0]].Live?
    ensures 0 <= Last(order) < |table| && table[Last(order)].Live?
  {
  }

  /** What the walk shows at its i-th entry, and where it goes from there. */
  lemma WalkStep<K, V>(table: seq<Entry<K, V>>, order: seq<int>, i: nat)
    requires ListsLive(table, order) && Linked(table, order) && DistinctLive(table) && i < |order|
    ensures 0 <= order[i] < |table|
    ensures var e, ps := table[order[i]], Walk(table, order);
            && e.Live? && e.next == LinkAfter(order, i)
            && ps[..i + 1] == ps[..i] + [Pair(e.k, e.v)]
            && !Has(ps[..i], e.k)
  {
    hide Find, Walk, ListsLive, Linked, DistinctLive;
    WalkDistinct(table, order);
    Neighbours(table, order, i);
    var ps := Walk(table, order);
    assert forall j :: 0 <= j < i ==> ps[..i][j].key != ps[i].key;
  }

  // ------------------------------------------------------------ the table

  class Table<K(==), V> {
    const hash: K -> nat
    var size: int
    var count: int
    var head: int
    var tail: int
    var table: array<Entry<K, V>>
    /** The slots in the order of the list. */
    ghost var order: seq<int>

    ghost predicate Valid()
      reads this, table
    {
      && 0 < size <= INT_MAX && table.Length == size
      && count == |order| && Roomy(count, size)
      && TableOk(table[..], order, hash)
      && head == (if order == [] then -1 else order[0])
      && tail == Last(order)
    }

    ghost function Contents(): seq<Pair<K, V>>
      reads this, table
      requires Valid()
    {
      Walk(table[..], order)
    }

    constructor (size: int, hash: K -> nat)
      requires 0 < size <= INT_MAX
      ensures Valid() && fresh(table) && this.size == size && this.hash == hash && Contents() == []
    {
      this.hash := hash;
      this.size, count, head, tail, order := size, 0, -1, -1, [];
      table := new Entry<K, V>[size](_ => Empty);
      new;
      assert forall n :: 0 <= n < |table[..]| ==> table[..][n] == Empty;
    }

    /** The probe loop of `lh_table_lookup_entry_w_hash`; -1 for NULL. */
    method LookupEntry(k: K) returns (n: int)
      requires Valid()
      ensures -1 <= n < size
      ensures n == -1 <==> !Has(Contents(), k)
      ensures n >= 0 ==> table[n].Live? && table[n].k == k
    {
      hide Linked, DistinctLive, Reachable;
      ghost var t := table[..];
      var home := Home(hash, k, size);
      n := home;
      var probes := 0;
      while probes < size
        invariant 0 <= probes <= size && 0 <= n < size
        invariant n == if probes == size then home else At(home, probes, size)
        invariant Missed(t, home, probes, k)
        modifies {}
      {
        if table[n] == Empty {
          ProbeEnds(t, order, hash, k, probes);
          return -1;
        }
        if table[n] != Freed && table[n].k == k {
          var i := FoundAt(t, order, n);
          return n;
        }
        n := n + 1;
        if n == size {
          n := 0;
        }
        probes := probes + 1;
      }
      ProbeEnds(t, order, hash, k, size);
      return -1;
    }

    /** The probe of an insert: the first slot from the home that is empty or freed. */
    method FreeEntry(k: K) returns (n: int)
      requires Valid() && count < size
      ensures CanTake(table[..], hash, k, n)
    {
      hide Linked, DistinctLive, Reachable, CanTake, Walk;
      ghost var t := table[..];
      var home := Home(hash, k, size);
      n := home;
      ghost var free := FreeSlot(t, order);
      ghost var d := 0;
      StepsReach(home, free, size);
      while true
        invariant 0 <= d <= Steps(home, free, size) && n == At(home, d, size)
        invariant forall e :: 0 <= e < d ==> t[At(home, e, size)].Live?
        decreases size - d
        modifies {}
      {
        if table[n] == Empty || table[n] == Freed {
          break;
        }
        n := n + 1;
        if n == size {
          n := 0;
        }
        d := d + 1;
      }
      ProbeTakes(t, hash, k, d);
    }

    /** The entry is filled in and put at the end of the list. */
    method FillEntry(n: int, k: K, v: V, constant: bool)
      requires table.Length == size && 0 <= n < size && !table[n].Live?
      requires (head == -1 <==> order == []) && tail == Last(order)
      requires order != [] ==> 0 <= tail < size && table[tail].Live?
      modifies this`count, this`head, this`tail, this`order, table
      ensures table[..] == Inserted(old(table[..]), old(order), n, k, constant, v)
      ensures order == old(order) + [n] && count == old(count) + 1
      ensures head == (if old(order) == [] then n else old(head)) && tail == n
    {
      count := count + 1;
      if head == -1 {
        head, tail := n, n;
        table[n] := Live(k, constant, v, -1, -1);
      } else {
        table[tail] := table[tail].(next := n);
        table[n] := Live(k, constant, v, -1, tail);
        tail := n;
      }
      order := order + [n];
    }

    lemma StepOn(i: nat)
      requires Valid() && i < count
      ensures 0 <= order[i] < size && table[order[i]].Live? && table[order[i]].next == LinkAfter(order, i)
      ensures |Contents()| == count
      ensures Contents()[..i + 1] == Contents()[..i] + [Pair(table[order[i]].k, table[order[i]].v)]
      ensures !Has(Contents()[..i], table[order[i]].k)
    {
      hide ListsLive, Linked, DistinctLive, Reachable, Find;
      WalkStep(table[..], order, i);
    }

    lemma EndsOfList()
      requires Valid()
      ensures 0 <= count == |order| == |Contents()| && 0 < size == table.Length <= INT_MAX
      ensures head == if order == [] then -1 else order[0]
    {
      hide TableOk;
    }

    /**
     `lh_table_resize`: every entry goes into a new table, from head to tail. A new table that has to grow
     on the way leaves more slots behind than the size says, so the table is sound if and only if the
     entries fit.
     */
    method Resize(newSize: int, memory: bool) returns (rc: int)
      requires Valid() && 0 < newSize <= INT_MAX
      modifies this
      ensures rc == 0 || rc == -1
      ensures memory && Fits(old(count), INT_MAX) ==> rc == 0
      ensures rc == 0 ==> memory && fresh(table) && size == newSize <= table.Length
      ensures rc == 0 ==> (size == table.Length <==> Fits(count, newSize))
      ensures rc == -1 ==> table == old(table) && size == old(size)
      ensures count == old(count) && (Valid() <==> rc == -1 || Fits(count, newSize))
      ensures Valid() ==> Contents() == old(Contents())
      decreases if Fits(count, newSize) then 1 else 3
    {
      hide TableOk, Walk, Find, Fits, Crowded, Grown, Has, Valid, Contents;
      EndsOfList();
      if !memory {
        return -1;
      }
      NoneFits(newSize);
      var newT := new Table<K, V>(newSize, hash);
      var ent := head;
      ghost var i, slots, was := 0, newT.table, Contents();
      newT.EndsOfList();
      label L:
      while ent != -1
        invariant newT.Valid() && newT.hash == hash && (newT.table == slots || fresh@L(newT.table))
        invariant newSize <= newT.size && (newT.size == newSize <==> Fits(i, newSize))
        invariant 0 <= i <= count && newT.count == i && ent == (if i < |order| then order[i] else -1)
        invariant newT.Contents() == was[..i]
        decreases count - i
        modifies newT, slots
      {
        StepOn(i);
        newT.EndsOfList();
        SizeAfter(i, count, newSize, newT.size);
        var r := newT.Insert(table[ent].k, table[ent].v, table[ent].constant, memory);
        if r != 0 {
          return -1;
        }
        ent := table[ent].next;
        i := i + 1;
      }
      if i < count {
        StepOn(i);
      }
      assert was[..i] == was;
      Adopt(newT, newSize);
      return 0;
    }

    /** The slots and the list of the new table become this one's. */
    method Adopt(newT: Table<K, V>, newSize: int)
      requires Valid() && newT.Valid() && newT.hash == hash && newT.count == count && newT != this
      requires 0 < newSize <= newT.size && (newT.size == newSize <==> Fits(count, newSize))
      modifies this
      ensures table == newT.table && size == newSize <= table.Length && count == old(count)
      ensures size == table.Length <==> Fits(count, newSize)
      ensures Valid() <==> Fits(count, newSize)
      ensures Valid() ==> Contents() == newT.Contents()
    {
      hide TableOk, Walk;
      table, size, head, tail, order := newT.table, newSize, newT.head, newT.tail, newT.order;
    }

    /** `lh_table_insert_w_hash`: a key that is in the table already is entered a second time. */
    method Insert(k: K, v: V, constant: bool, memory: bool) returns (rc: int)
      requires Valid()
      modifies this, table
      ensures table == old(table) || fresh(table)
      ensures rc == if !old(Crowded(count, size)) || (memory && old(size) < INT_MAX) then 0 else -1
      ensures size == if rc == 0 && old(Crowded(count, size)) then Grown(old(size)) else old(size)
      ensures old(!Crowded(count, size)) ==> table == old(table)
      ensures count == if rc == 0 then old(count) + 1 else old(count)
      ensures ListsLive(table[..], order)
      ensures Walk(table[..], order) == if rc == 0 then old(Contents()) + [Pair(k, v)] else old(Contents())
      ensures Valid() <==> rc == -1 || !old(Has(Contents(), k))
      ensures Valid() ==> Contents() == Walk(table[..], order)
      decreases if Crowded(count, size) then 2 else 0
    {
      hide ListsLive, Linked, DistinctLive, Reachable, Walk, Find, Inserted;
      if Crowded(count, size) {
        var newSize := if size > INT_MAX / 2 then INT_MAX else size * 2;
        if size == INT_MAX {
          return -1;
        }
        var r := Resize(newSize, memory);
        if r != 0 {
          return -1;
        }
      }
      var n := FreeEntry(k);
      InsertKeeps(table[..], order, hash, n, k, constant, v);
      if order != [] {
        EndsLive(table[..], order);
      }
      FillEntry(n, k, v, constant);
      return 0;
    }

    /** The entry becomes a tombstone and its neighbours are joined. */
    method Unlink(n: int, ghost i: nat)
      requires table.Length == size && ListsLive(table[..], order) && Linked(table[..], order)
      requires i < |order| && order[i] == n && head == order[0] && tail == Last(order)
      modifies this`count, this`head, this`tail, this`order, table
      ensures table[..] == Deleted(old(table[..]), old(order), i)
      ensures order == Without(old(order), i) && count == old(count) - 1
      ensures head == (if order == [] then -1 else order[0]) && tail == Last(order)
    {
      hide ListsLive, Linked, Without, Last;
      ghost var t, o := table[..], order;
      Neighbours(t, o, i);
      WithoutEnds(o, i);
      order := Without(o, i);
      var e := table[n];
      assert i + 1 < |o| ==> 0 <= e.next < size && table[e.next].Live? && e.next != n;
      assert i > 0 ==> 0 <= e.prev < size && table[e.prev].Live? && e.prev != n;
      assert 0 < i < |o| - 1 ==> e.prev != e.next;
      count := count - 1;
      table[n] := Freed;
      if tail == n && head == n {
        head, tail := -1, -1;
      } else if head == n {
        table[e.next] := table[e.next].(prev := -1);
        head := e.next;
      } else if tail == n {
        table[e.prev] := table[e.prev].(next := -1);
        tail := e.prev;
      } else {
        table[e.prev] := table[e.prev].(next := e.next);
        table[e.next] := table[e.next].(prev := e.prev);
      }
      assert forall m :: 0 <= m < size ==> table[m] == Left(t, o, i, m);
    }

    /** `lh_table_delete_entry`. */
    method DeleteEntry(n: int) returns (rc: int)
      requires Valid() && n < size
      modifies this, table
      ensures Valid() && table == old(table) && size == old(size)
      ensures rc == if n < 0 then -2 else if !old(table[n]).Live? then -1 else 0
      ensures Contents() == if rc == 0 then Remove(old(Contents()), old(table[n]).k) else old(Contents())
    {
      hide ListsLive, Linked, DistinctLive, Reachable, Walk, Find, Deleted, Without;
      if n < 0 {
        return -2;
      }
      if table[n] == Empty || table[n] == Freed {
        return -1;
      }
      ghost var i := FoundAt(table[..], order, n);
      DeleteKeeps(table[..], order, hash, i);
      Unlink(n, i);
      return 0;
    }

    /** `lh_table_delete`. */
    method Delete(k: K) returns (rc: int)
      requires Valid()
      modifies this, table
      ensures Valid() && table == old(table) && size == old(size)
      ensures rc == if Has(old(Contents()), k) then 0 else -1
      ensures Contents() == Remove(old(Contents()), k)
    {
      var n := LookupEntry(k);
      if n == -1 {
        return -1;
      }
      rc := DeleteEntry(n);
    }

    /** `lh_entry_set_val`: the key keeps its slot and its place on the list. */
    method SetVal(n: int, v: V)
      requires Valid() && 0 <= n < size && table[n].Live?
      modifies table
      ensures Valid() && Contents() == Put(old(Contents()), old(table[n]).k, v)
    {
      hide ListsLive, Linked, DistinctLive, Reachable, Walk, Find;
      ghost var t := table[..];
      ghost var i := FoundAt(t, order, n);
      SetValKeeps(t, order, hash, i, v);
      table[n] := table[n].(v := v);
      assert table[..] == Revalued(t, n, v);
    }

    /**
     `json_object_object_add_ex`: replace in place, or append; `isNew` skips the lookup for a key the caller
     knows is new.
     */
    method ObjectAdd(k: K, v: V, isNew: bool, constant: bool, memory: bool) returns (rc: int)
      requires Valid() && (isNew ==> !Has(Contents(), k))
      modifies this, table
      ensures Valid() && (table == old(table) || fresh(table))
      ensures rc == 0 || rc == -1
      ensures Has(old(Contents()), k) || (memory && old(size) < INT_MAX) ==> rc == 0
      ensures rc != 0 ==> size == old(size) && (!memory || size == INT_MAX)
      ensures Contents() == if rc == 0 then Put(old(Contents()), k, v) else old(Contents())
    {
      hide TableOk, Walk, Find;
      var n := -1;
      if !isNew {
        n := LookupEntry(k);
      }
      if n == -1 {
        if !constant && !memory {
          return -1;
        }
        rc := Insert(k, v, constant, memory);
        return;
      }
      SetVal(n, v);
      return 0;
    }
  }

  /** A key entered twice stays in the list twice. */
  method InsertTwice(hash: int -> nat) returns (t: Table<int, int>)
    ensures !t.Valid() && ListsLive(t.table[..], t.order)
    ensures Walk(t.table[..], t.order) == [Pair(1, 1), Pair(1, 2)]
  {
    hide ListsLive, Walk, Table.Valid;
    t := new Table<int, int>(16, hash);
    var rc := t.Insert(1, 1, false, true);
    assert t.Contents() == [Pair(1, 1)];
    rc := t.Insert(1, 2, false, true);
  }

  /** A table of three entries that is made two slots large says less than it holds. */
  method ResizedTooSmall(hash: int -> nat) returns (t: Table<int, int>)
    ensures !t.Valid() && t.count == 3 && t.size == 2 < t.table.Length
  {
    hide ListsLive, Walk, Table.Valid;
    t := new Table<int, int>(16, hash);
    var rc := t.Insert(1, 1, false, true);
    assert t.Contents() == [Pair(1, 1)];
    rc := t.Insert(2, 2, false, true);
    assert t.Contents() == [Pair(1, 1), Pair(2, 2)];
    rc := t.Insert(3, 3, false, true);
    rc := t.Resize(2, true);
  }

  /** A run of adds and deletes on an empty object, up to the first that fails. */
  method Run<K(==), V>(t: Table<K, V>, ops: seq<Change<K, V>>, memory: bool) returns (done: nat)
    requires t.Valid() && t.Contents() == []
    modifies t, t.table
    ensures t.Valid() && done <= |ops| && t.Contents() == Replay(ops[..done])
    ensures done < |ops| ==> ops[done].Add? && !Has(t.Contents(), ops[done].k) && (!memory || t.size == INT_MAX)
  {
    hide Table.Valid, Table.Contents;
    done := 0;
    assert ops[..0] == [];
    while done < |ops|
      invariant done <= |ops| && t.Valid() && t.Contents() == Replay(ops[..done])
      invariant t.table == old(t.table) || fresh(t.table)
    {
      assert ops[..done + 1] == ops[..done] + [ops[done]];
      if ops[done].Add? {
        var rc := t.ObjectAdd(ops[done].k, ops[done].v, false, false, memory);
        if rc != 0 {
          return;
        }
      } else {
        var rc := t.Delete(ops[done].k);
      }
      done := done + 1;
    }
  }
}
