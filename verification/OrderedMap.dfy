/**
 A finite map that remembers the order in which its keys were first added: the abstract
 value of a linkhash table read from head to tail, and of a JSON object.
 */
module OrderedMap {
  import opened Basics

  datatype Pair<+K, +V> = Pair(key: K, val: V)

  /** The index of `key`, or |ps| when absent. */
  function Find<K(==), V>(ps: seq<Pair<K, V>>, key: K): (n: nat)
    ensures n <= |ps|
    ensures n < |ps| ==> ps[n].key == key
    ensures forall i :: 0 <= i < n ==> ps[i].key != key
  {
    if ps == [] || ps[0].key == key then 0 else 1 + Find(ps[1..], key)
  }

  predicate Has<K(==), V>(ps: seq<Pair<K, V>>, key: K) {
    Find(ps, key) < |ps|
  }

  function Get<K(==), V>(ps: seq<Pair<K, V>>, key: K): Option<V> {
    if Has(ps, key) then Some(ps[Find(ps, key)].val) else None
  }

  /** Replace in place, or append. */
  function Put<K(==), V>(ps: seq<Pair<K, V>>, key: K, val: V): seq<Pair<K, V>> {
    if Has(ps, key) then ps[Find(ps, key) := Pair(key, val)] else ps + [Pair(key, val)]
  }

  function Remove<K(==), V>(ps: seq<Pair<K, V>>, key: K): seq<Pair<K, V>> {
    if Has(ps, key) then ps[..Find(ps, key)] + ps[Find(ps, key) + 1..] else ps
  }

  ghost predicate Distinct<K, V>(ps: seq<Pair<K, V>>) {
    forall i, j :: 0 <= i < j < |ps| ==> ps[i].key != ps[j].key
  }

  function Keys<K, V>(ps: seq<Pair<K, V>>): (ks: seq<K>)
    ensures |ks| == |ps|
    ensures forall i :: 0 <= i < |ps| ==> ks[i] == ps[i].key
  {
    if ps == [] then [] else [ps[0].key] + Keys(ps[1..])
  }

  /** With distinct keys the index is the only place where the key stands. */
  lemma FindUnique<K, V>(ps: seq<Pair<K, V>>, n: nat)
    requires Distinct(ps) && n < |ps|
    ensures Find(ps, ps[n].key) == n
  {
  }

  lemma PlaceIsUnique<K, V>(ps: seq<Pair<K, V>>, m: nat, n: nat)
    requires Distinct(ps) && m < |ps| && n < |ps| && m != n
    ensures ps[m].key != ps[n].key
  {
  }

  lemma HasAt<K, V>(ps: seq<Pair<K, V>>, n: nat)
    requires n < |ps|
    ensures Has(ps, ps[n].key)
  {
  }

  /** A lookup after a put: the new value under the key, everything else as before. */
  lemma PutThenGet<K, V>(ps: seq<Pair<K, V>>, key: K, val: V, other: K)
    ensures Get(Put(ps, key, val), other) == if other == key then Some(val) else Get(ps, other)
  {
    var qs := Put(ps, key, val);
    var i := Find(ps, other);
    assert forall j :: 0 <= j < |ps| && j != Find(ps, key) ==> qs[j] == ps[j];
    if other == key {
      assert qs[Find(ps, key)] == Pair(key, val);
    } else if i < |ps| {
      assert qs[i] == ps[i];
    }
  }

  lemma PutKeepsDistinct<K, V>(ps: seq<Pair<K, V>>, key: K, val: V)
    requires Distinct(ps)
    ensures Distinct(Put(ps, key, val))
  {
  }

  /** Where a pair left by a removal stood before. */
  function Before(n: nat, j: nat): nat {
    if j < n then j else j + 1
  }

  lemma RemovedAt<K, V>(ps: seq<Pair<K, V>>, key: K)
    requires Has(ps, key)
    ensures |Remove(ps, key)| == |ps| - 1
    ensures forall j :: 0 <= j < |ps| - 1 ==> Remove(ps, key)[j] == ps[Before(Find(ps, key), j)]
  {
    var n := Find(ps, key);
    var front, back := ps[..n], ps[n + 1..];
    assert Remove(ps, key) == front + back;
    forall j | 0 <= j < |ps| - 1
      ensures Remove(ps, key)[j] == ps[Before(n, j)]
    {
      if j < n {
        assert (front + back)[j] == front[j];
      } else {
        assert (front + back)[j] == back[j - n];
      }
    }
  }

  lemma RemoveKeepsDistinct<K, V>(ps: seq<Pair<K, V>>, key: K)
    requires Distinct(ps)
    ensures Distinct(Remove(ps, key))
  {
    if Has(ps, key) {
      hide Remove, Has;
      RemovedAt(ps, key);
      var n := Find(ps, key);
      assert forall i, j :: 0 <= i < j ==> Before(n, i) < Before(n, j);
    }
  }

  /** A lookup after a removal: nothing under the key, everything else as before. */
  lemma RemoveThenGet<K, V>(ps: seq<Pair<K, V>>, key: K, other: K)
    requires Distinct(ps)
    ensures Get(Remove(ps, key), other) == if other == key then None else Get(ps, other)
  {
    if Has(ps, key) {
      var qs, n, i := Remove(ps, key), Find(ps, key), Find(ps, other);
      RemoveKeepsDistinct(ps, key);
      RemovedAt(ps, key);
      if other != key && i < |ps| {
        var i' := if i < n then i else i - 1;
        assert qs[i'] == ps[Before(n, i')];
        FindUnique(qs, i');
      }
    }
  }

  // ------------------------------------------------------------ whole histories

  datatype Change<+K, +V> = Add(k: K, v: V) | Del(k: K)

  function Replay<K(==), V>(ops: seq<Change<K, V>>): seq<Pair<K, V>> {
    if ops == [] then []
    else
      var before := Replay(ops[..|ops| - 1]);
      match ops[|ops| - 1]
      case Add(k, v) => Put(before, k, v)
      case Del(k) => Remove(before, k)
  }

  /** What the last change that names the key left under it. */
  function LastWrite<K(==), V>(ops: seq<Change<K, V>>, key: K): Option<V> {
    if ops == [] then None
    else if ops[|ops| - 1].k != key then LastWrite(ops[..|ops| - 1], key)
    else if ops[|ops| - 1].Add? then Some(ops[|ops| - 1].v)
    else None
  }

  /** When the key came in: the first add since the last delete. */
  function Born<K(==), V>(ops: seq<Change<K, V>>, key: K): (n: Option<nat>)
    ensures n.Some? ==> n.value < |ops|
  {
    if ops == [] then None
    else
      var before := Born(ops[..|ops| - 1], key);
      if ops[|ops| - 1].k != key then before
      else if ops[|ops| - 1].Del? then None
      else if before.Some? then before
      else Some(|ops| - 1)
  }

  /** After any history a lookup gives what the last change to the key left. */
  lemma {:induction false} ReplayLooksUp<K, V>(ops: seq<Change<K, V>>, key: K)
    ensures Distinct(Replay(ops))
    ensures Get(Replay(ops), key) == LastWrite(ops, key)
  {
    if ops != [] {
      hide Distinct, Find, Put, Remove, Get;
      var front, last := ops[..|ops| - 1], ops[|ops| - 1];
      ReplayLooksUp(front, key);
      if last.Add? {
        PutKeepsDistinct(Replay(front), last.k, last.v);
        PutThenGet(Replay(front), last.k, last.v, key);
      } else {
        RemoveKeepsDistinct(Replay(front), last.k);
        RemoveThenGet(Replay(front), last.k, key);
      }
    }
  }

  lemma {:induction false} BornOrNot<K, V>(ops: seq<Change<K, V>>, key: K)
    ensures LastWrite(ops, key).Some? <==> Born(ops, key).Some?
  {
    if ops != [] {
      BornOrNot(ops[..|ops| - 1], key);
    }
  }

  lemma PresentIsBorn<K, V>(ops: seq<Change<K, V>>, key: K)
    ensures Has(Replay(ops), key) <==> Born(ops, key).Some?
  {
    ReplayLooksUp(ops, key);
    BornOrNot(ops, key);
  }

  /** After any history the keys stand in the order in which they came in; a replacement keeps its place. */
  lemma {:induction false} ReplayOrders<K, V>(ops: seq<Change<K, V>>, i: nat, j: nat)
    requires i < j < |Replay(ops)|
    ensures var a, b := Born(ops, Replay(ops)[i].key), Born(ops, Replay(ops)[j].key);
            a.Some? && b.Some? && a.value < b.value
    decreases |ops|
  {
    hide Distinct, Find, Get;
    var front, last := ops[..|ops| - 1], ops[|ops| - 1];
    var ps, qs := Replay(front), Replay(ops);
    ReplayLooksUp(front, last.k);
    PresentIsBorn(front, last.k);
    if !Has(ps, last.k) && last.Add? {
      assert qs[i] == ps[i];
      HasAt(ps, i);
      PresentIsBorn(front, ps[i].key);
      if j < |ps| {
        assert qs[j] == ps[j];
        ReplayOrders(front, i, j);
      }
    } else if Has(ps, last.k) && last.Del? {
      var n := Find(ps, last.k);
      RemovedAt(ps, last.k);
      PlaceIsUnique(ps, n, Before(n, i));
      PlaceIsUnique(ps, n, Before(n, j));
      ReplayOrders(front, Before(n, i), Before(n, j));
    } else {
      assert qs[i].key == ps[i].key && qs[j].key == ps[j].key;
      HasAt(ps, i);
      HasAt(ps, j);
      ReplayOrders(front, i, j);
    }
  }
}
