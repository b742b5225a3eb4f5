/**
 What a set through a JSON Pointer leaves behind, spelled out on the containers themselves: which
 member changed, which stayed, and how long the container is afterwards.
 */
module PointerStore {
  import opened Basics
  import opened OrderedMap
  import opened JsonValue
  import opened Decimal
  import opened PointerTokens
  import opened JsonPointer

  /** The token is the decimal text of the index; the code takes the empty one for the first index. */
  predicate IndexText(t: string, n: nat) {
    n < SIZE_T_MAX && (t == Digits(n) || (t == "" && n == 0))
  }

  /** The first member with this key, or the place behind all members. */
  ghost predicate KeyAt(fs: seq<Field>, key: string, n: nat) {
    n <= |fs| && (n < |fs| ==> fs[n].key == key) && forall j :: 0 <= j < n ==> fs[j].key != key
  }

  /** `x` stands at `n`, everything else where it stood, and nothing but the gap before `n` is new. */
  ghost predicate Stands<T>(before: seq<T>, after: seq<T>, n: nat, x: T, gap: T) {
    && |after| == (if n < |before| then |before| else n + 1)
    && after[n] == x
    && forall j :: 0 <= j < |after| && j != n ==> after[j] == if j < |before| then before[j] else gap
  }

  /** The container that the last token of a set is about. */
  ghost predicate StoredIn(before: Json, after: Json, t: string, val: Json, room: bool) {
    match before
    case Arr(es) =>
      && room && after.Arr?
      && if t == "-" then Stands(es, after.elems, |es|, val, Null)
         else exists n: nat :: IndexText(t, n) && Stands(es, after.elems, n, val, Null)
    case Obj(fs) =>
      && after.Obj?
      && exists n: nat ::
           KeyAt(fs, t, n) && (room || n < |fs|) && Stands(fs, after.fields, n, Pair(t, val), Pair(t, val))
    case _ => false
  }

  /** The member of a container that a token of the way leads to. */
  ghost predicate MemberAt(v: Json, t: string, n: nat) {
    (v.Arr? && n < |v.elems| && IndexText(t, n)) || (v.Obj? && n < |v.fields| && KeyAt(v.fields, Decoded(t), n))
  }

  predicate HasMember(v: Json, n: nat) {
    (v.Arr? && n < |v.elems|) || (v.Obj? && n < |v.fields|)
  }

  function Member(v: Json, n: nat): Json
    requires HasMember(v, n)
  {
    if v.Arr? then v.elems[n] else v.fields[n].val
  }

  /** Two containers of the same length that differ in the n-th value at most. */
  ghost predicate OnlyMember(v: Json, w: Json, n: nat) {
    if v.Arr? then
      && w.Arr? && |w.elems| == |v.elems|
      && forall j :: 0 <= j < |v.elems| && j != n ==> w.elems[j] == v.elems[j]
    else
      && v.Obj? && w.Obj? && |w.fields| == |v.fields|
      && (forall j :: 0 <= j < |v.fields| ==> w.fields[j].key == v.fields[j].key)
      && forall j :: 0 <= j < |v.fields| && j != n ==> w.fields[j] == v.fields[j]
  }

  ghost predicate OnTheWay(v: Json, w: Json, t: string, n: nat) {
    HasMember(v, n) && HasMember(w, n) && MemberAt(v, t, n) && OnlyMember(v, w, n)
  }

  /** The tree `w` is `v` with the value stored where the tokens say, and nothing else changed. */
  ghost predicate SetTo(v: Json, w: Json, toks: seq<string>, val: Json, room: bool)
    requires toks != []
    decreases |toks|
  {
    if |toks| == 1 then StoredIn(v, w, toks[0], val, room)
    else exists n: nat :: OnTheWay(v, w, toks[0], n) && SetTo(Member(v, n), Member(w, n), toks[1..], val, room)
  }

  /** The index check reads exactly these texts. */
  lemma IndexTextRead(t: string, n: nat)
    requires n < SIZE_T_MAX
    ensures ReadIndex(t) == Some(n) <==> IndexText(t, n)
  {
    hide Digits, Value;
    if t == "" {
      DigitsShape(n);
      assert Value("") == 0 by {
        EmptyIsZero();
      }
    } else if t == Digits(n) {
      DigitsShape(n);
      ValueOfDigits(n);
      if |t| == 1 {
        assert t == [t[0]];
        ValueOfOne(t[0]);
      } else if n == 0 {
        ZeroDigits();
      }
    } else if ReadIndex(t) == Some(n) {
      IndexIsCanonical(t);
    }
  }

  lemma EmptyIsZero()
    ensures Value("") == 0
  {
  }

  lemma ZeroDigits()
    ensures Digits(0) == "0"
  {
  }

  lemma IndexBound(t: string, n: nat)
    requires IndexText(t, n)
    ensures n < SIZE_T_MAX
  {
  }

  lemma KeyAtFind(fs: seq<Field>, key: string, n: nat)
    ensures KeyAt(fs, key, n) <==> n == Find(fs, key)
  {
  }

  lemma StandsIsPutAt<T>(before: seq<T>, after: seq<T>, n: nat, x: T, gap: T)
    ensures Stands(before, after, n, x, gap) <==> after == PutAt(before, n, x, gap)
  {
    var p := PutAt(before, n, x, gap);
    assert Stands(before, p, n, x, gap);
    if Stands(before, after, n, x, gap) {
      assert forall j :: 0 <= j < |after| ==> after[j] == p[j];
    }
  }

  /** The code's own store is this one. */
  lemma StoresInArray(v: Json, w: Json, t: string, val: Json, room: bool)
    requires v.Arr?
    ensures SetSingle(v, t, val, room) == Some(w) <==> StoredIn(v, w, t, val, room)
  {
    hide ReadIndex, IndexText, PutAt, Stands;
    if t == "-" {
      if w.Arr? {
        StandsIsPutAt(v.elems, w.elems, |v.elems|, val, Null);
        PutAtEnd(v.elems, val, Null);
      }
    } else {
      forall n: nat | IndexText(t, n)
        ensures ReadIndex(t) == Some(n) && n < SIZE_T_MAX
      {
        IndexBound(t, n);
        IndexTextRead(t, n);
      }
      if ReadIndex(t).Some? && ReadIndex(t).value < SIZE_T_MAX {
        IndexTextRead(t, ReadIndex(t).value);
        if w.Arr? {
          StandsIsPutAt(v.elems, w.elems, ReadIndex(t).value, val, Null);
        }
      }
    }
  }

  lemma PutAtEnd<T>(s: seq<T>, x: T, gap: T)
    ensures PutAt(s, |s|, x, gap) == s + [x]
  {
    assert Copies(0, gap) == [];
  }

  lemma StoresInObject(v: Json, w: Json, t: string, val: Json, room: bool)
    requires v.Obj?
    ensures SetSingle(v, t, val, room) == Some(w) <==> StoredIn(v, w, t, val, room)
  {
    hide PutAt, Stands, KeyAt, Find;
    var n, x := Find(v.fields, t), Pair(t, val);
    KeyAtFind(v.fields, t, n);
    forall m: nat | KeyAt(v.fields, t, m)
      ensures m == n
    {
      KeyAtFind(v.fields, t, m);
    }
    if w.Obj? {
      StandsIsPutAt(v.fields, w.fields, n, x, x);
      PutIsPutAt(v.fields, t, val);
    }
  }

  lemma PutIsPutAt(fs: seq<Field>, key: string, val: Json)
    ensures Put(fs, key, val) == PutAt(fs, Find(fs, key), Pair(key, val), Pair(key, val))
  {
    PutAtEnd(fs, Pair(key, val), Pair(key, val));
  }

  /** One step of the code leads to the member, unless it is a null element, which nothing is set in. */
  lemma StepIsMember(v: Json, t: string, n: nat)
    requires v.Arr? ==> |v.elems| <= UINT64_MAX
    requires HasMember(v, n) && MemberAt(v, t, n) && !(v.Arr? && Member(v, n).Null?)
    ensures Step(v, t) == Some(Member(v, n))
  {
    hide ReadIndex, IndexText, KeyAt, Unescaped, Find;
    if v.Arr? {
      IndexBound(t, n);
      IndexTextRead(t, n);
    } else {
      UnescapedIsDecoded(t);
      KeyAtFind(v.fields, Decoded(t), n);
    }
  }

  lemma StepMember(v: Json, t: string) returns (n: nat)
    requires v.Arr? ==> |v.elems| <= UINT64_MAX
    requires Step(v, t).Some?
    ensures HasMember(v, n) && MemberAt(v, t, n) && Member(v, n) == Step(v, t).value
  {
    hide ReadIndex, IndexText, KeyAt, Unescaped, Find;
    if v.Arr? {
      n := ReadIndex(t).value;
      IndexTextRead(t, n);
    } else {
      UnescapedIsDecoded(t);
      n := Find(v.fields, Decoded(t));
      KeyAtFind(v.fields, Decoded(t), n);
    }
  }

  /** Grafting a member in changes that one. */
  lemma GraftIsOnly(v: Json, w: Json, t: string, n: nat)
    requires v.Arr? ==> |v.elems| <= UINT64_MAX
    requires Step(v, t).Some? && HasMember(v, n) && MemberAt(v, t, n)
    ensures forall m :: Graft(v, t, m) == w ==> HasMember(w, n) && OnlyMember(v, w, n) && Member(w, n) == m
    ensures HasMember(w, n) && OnlyMember(v, w, n) ==> w == Graft(v, t, Member(w, n))
  {
    hide ReadIndex, IndexText, KeyAt, Unescaped, Find;
    if v.Arr? {
      IndexBound(t, n);
      IndexTextRead(t, n);
      if HasMember(w, n) && OnlyMember(v, w, n) {
        assert w.elems == v.elems[n := w.elems[n]];
      }
    } else {
      UnescapedIsDecoded(t);
      KeyAtFind(v.fields, Decoded(t), n);
      if HasMember(w, n) && OnlyMember(v, w, n) {
        assert w.fields[n] == Pair(Decoded(t), w.fields[n].val);
        assert w.fields == v.fields[n := w.fields[n]];
      }
    }
  }

  /** Nothing is ever set in a null. */
  lemma NullTakesNothing(w: Json, toks: seq<string>, val: Json, room: bool)
    requires toks != []
    ensures !SetTo(Null, w, toks, val, room)
  {
  }

  lemma {:induction false} SetLeaves(v: Json, w: Json, toks: seq<string>, val: Json, room: bool)
    requires toks != [] && LengthsFit(v, toks) && SetIn(v, toks, val, room) == Some(w)
    ensures SetTo(v, w, toks, val, room)
    decreases |toks|
  {
    hide StoredIn, MemberAt, OnlyMember, HasMember, SetSingle, Step, Graft, Member;
    var t, rest := toks[0], toks[1..];
    if |toks| == 1 {
      SetsInLast(v, w, t, val, room);
    } else {
      var next := Step(v, t).value;
      var n := StepMember(v, t);
      GraftIsOnly(v, w, t, n);
      SetLeaves(next, SetIn(next, rest, val, room).value, rest, val, room);
      assert OnTheWay(v, w, t, n);
    }
  }

  lemma FirstMember(v: Json, w: Json, toks: seq<string>, val: Json, room: bool) returns (n: nat)
    requires |toks| > 1 && SetTo(v, w, toks, val, room)
    ensures OnTheWay(v, w, toks[0], n) && SetTo(Member(v, n), Member(w, n), toks[1..], val, room)
  {
    hide MemberAt, OnlyMember;
    n :| OnTheWay(v, w, toks[0], n) && SetTo(Member(v, n), Member(w, n), toks[1..], val, room);
  }

  lemma {:induction false} LeftBySet(v: Json, w: Json, toks: seq<string>, val: Json, room: bool)
    requires toks != [] && LengthsFit(v, toks) && SetTo(v, w, toks, val, room)
    ensures SetIn(v, toks, val, room) == Some(w)
    decreases |toks|, 1
  {
    if |toks| == 1 {
      SetsInLast(v, w, toks[0], val, room);
    } else {
      LeftByStep(v, w, toks, val, room);
    }
  }

  lemma {:induction false} LeftByStep(v: Json, w: Json, toks: seq<string>, val: Json, room: bool)
    requires |toks| > 1 && LengthsFit(v, toks) && SetTo(v, w, toks, val, room)
    ensures SetIn(v, toks, val, room) == Some(w)
    decreases |toks|, 0
  {
    hide SetTo, MemberAt, OnlyMember, HasMember, SetSingle, Step, Graft, Member;
    var n := FirstMember(v, w, toks, val, room);
    if Member(v, n).Null? {
      NullTakesNothing(Member(w, n), toks[1..], val, room);
    }
    StepIsMember(v, toks[0], n);
    GraftIsOnly(v, w, toks[0], n);
    LeftBySet(Member(v, n), Member(w, n), toks[1..], val, room);
  }

  /**
   A set succeeds with this tree if and only if the tree is the old one with the value in its place:
   at "-" one element more, at an index nulls only in the gap before it, under a key the first member
   of that key or a new last one, and every other member of every container as it was.
   */
  lemma SetExactly(v: Json, w: Json, toks: seq<string>, val: Json, room: bool)
    requires toks != [] && LengthsFit(v, toks)
    ensures SetIn(v, toks, val, room) == Some(w) <==> SetTo(v, w, toks, val, room)
  {
    hide SetIn, SetTo, LengthsFit;
    if SetIn(v, toks, val, room) == Some(w) {
      SetLeaves(v, w, toks, val, room);
    }
    if SetTo(v, w, toks, val, room) {
      LeftBySet(v, w, toks, val, room);
    }
  }

  lemma SetsInLast(v: Json, w: Json, t: string, val: Json, room: bool)
    ensures SetSingle(v, t, val, room) == Some(w) <==> StoredIn(v, w, t, val, room)
  {
    hide StoredIn, SetSingle;
    if v.Arr? {
      StoresInArray(v, w, t, val, room);
    } else if v.Obj? {
      StoresInObject(v, w, t, val, room);
    } else {
      ScalarsTakeNothing(v, w, t, val, room);
    }
  }

  lemma ScalarsTakeNothing(v: Json, w: Json, t: string, val: Json, room: bool)
    requires !v.Arr? && !v.Obj?
    ensures SetSingle(v, t, val, room).None? && !StoredIn(v, w, t, val, room)
  {
  }

  // ------------------------------------------------------------ the tokens of a path

  function Joined(toks: seq<string>): string
    requires toks != []
  {
    if |toks| == 1 then toks[0] else toks[0] + "/" + Joined(toks[1..])
  }

  ghost predicate SlashFree(toks: seq<string>) {
    forall i :: 0 <= i < |toks| ==> '/' !in toks[i]
  }

  lemma SlashEnds(s: string, x: string, rest: string)
    requires s == x + "/" + rest && '/' !in x
    ensures FirstSlash(s) == |x| && s[..|x|] == x && s[|x| + 1..] == rest
  {
    assert s[|x|] == '/';
    assert forall i :: 0 <= i < |x| ==> s[i] == x[i];
  }

  lemma NoSlashAtAll(s: string)
    requires '/' !in s
    ensures FirstSlash(s) == |s|
  {
  }

  lemma {:induction false} SplitJoins(s: string)
    ensures Split(s) != [] && Joined(Split(s)) == s && SlashFree(Split(s))
    decreases |s|
  {
    hide FirstSlash;
    var n := FirstSlash(s);
    if n < |s| {
      var rest := s[n + 1..];
      SplitJoins(rest);
      assert ([s[..n]] + Split(rest))[1..] == Split(rest);
      assert s == s[..n] + "/" + rest;
    }
  }

  lemma {:induction false} JoinedSplits(toks: seq<string>)
    requires toks != [] && SlashFree(toks)
    ensures Split(Joined(toks)) == toks
    decreases |toks|
  {
    hide FirstSlash;
    if |toks| == 1 {
      NoSlashAtAll(toks[0]);
    } else {
      SlashEnds(Joined(toks), toks[0], Joined(toks[1..]));
      JoinedSplits(toks[1..]);
      assert toks == [toks[0]] + toks[1..];
    }
  }

  /** Section 3 of RFC 6901: the tokens are what stands between the slashes. */
  lemma SplitExactly(s: string, toks: seq<string>)
    ensures Split(s) == toks <==> toks != [] && Joined(toks) == s && SlashFree(toks)
  {
    hide Split, Joined, SlashFree;
    SplitJoins(s);
    if toks != [] && SlashFree(toks) {
      JoinedSplits(toks);
    }
  }
}
