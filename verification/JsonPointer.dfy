/**
 json_pointer.c: looking a pointer up in a tree and setting the value it points at, against the
 evaluation of section 4 of RFC 6901.
 */
module JsonPointer {
  import opened Basics
  import opened OrderedMap
  import opened JsonValue
  import opened Decimal
  import opened PointerTokens

  // ------------------------------------------------------------ array indices

  /** `is_valid_index`. An empty token is read as index 0. */
  function ReadIndex(t: string): (i: Option<nat>)
    ensures i.Some? ==> i.value <= UINT64_MAX
  {
    if |t| == 1 then if IsDigit(t[0]) then Some(DigitValue(t[0])) else None
    else if t != "" && t[0] == '0' then None
    else if !AllDigits(t) then None
    else Some(if Value(t) > UINT64_MAX then UINT64_MAX else Value(t))
  }

  /** The index of RFC 6901: "0", or digits without a leading zero. */
  function RfcIndex(t: string): Option<nat> {
    if t != "" && AllDigits(t) && (t == "0" || t[0] != '0') then Some(Value(t)) else None
  }

  lemma ValueOfOne(c: char)
    requires IsDigit(c)
    ensures AllDigits([c]) && Value([c]) == DigitValue(c)
  {
    assert [c][..0] == "";
  }

  /** Apart from the empty token the two readings find the same element of any array C can hold. */
  lemma IndexAgrees(t: string, len: nat)
    requires t != "" && len <= UINT64_MAX
    ensures ReadIndex(t).Some? <==> RfcIndex(t).Some?
    ensures ReadIndex(t).Some? ==> (ReadIndex(t).value < len <==> RfcIndex(t).value < len)
    ensures ReadIndex(t).Some? && ReadIndex(t).value < len ==> ReadIndex(t) == RfcIndex(t)
  {
    if |t| == 1 {
      assert t == [t[0]];
      if IsDigit(t[0]) {
        ValueOfOne(t[0]);
      }
    }
  }

  // ------------------------------------------------------------ evaluation

  /** `json_pointer_get_single_path`. */
  function Step(v: Json, t: string): Option<Json> {
    if v.Arr? then
      var i := ReadIndex(t);
      if i.None? || i.value >= |v.elems| || v.elems[i.value].Null? then None else Some(v.elems[i.value])
    else if v.Obj? then Get(v.fields, Unescaped(t))
    else None
  }

  function Lookup(v: Json, toks: seq<string>): Option<Json> {
    if toks == [] then Some(v)
    else
      var r := Step(v, toks[0]);
      if r.None? then None else Lookup(r.value, toks[1..])
  }

  /** One step of section 4 of RFC 6901. */
  function RfcStep(v: Json, t: string): Option<Json> {
    if v.Arr? then
      var i := RfcIndex(t);
      if i.None? || i.value >= |v.elems| then None else Some(v.elems[i.value])
    else if v.Obj? then Get(v.fields, Decoded(t))
    else None
  }

  function RfcEval(v: Json, toks: seq<string>): Option<Json> {
    if toks == [] then Some(v)
    else
      var r := RfcStep(v, toks[0]);
      if r.None? then None else RfcEval(r.value, toks[1..])
  }

  /** No array on the way has more elements than a `size_t` counts. */
  predicate LengthsFit(v: Json, toks: seq<string>)
    decreases |toks|
  {
    toks == [] ||
    ((v.Arr? ==> |v.elems| <= UINT64_MAX) && (Step(v, toks[0]).Some? ==> LengthsFit(Step(v, toks[0]).value, toks[1..])))
  }

  /** The lookup succeeds, and on the way it reads an empty token as an array index. */
  predicate EmptyIndexUsed(v: Json, toks: seq<string>)
    decreases |toks|
  {
    toks != [] && Step(v, toks[0]).Some? &&
    var next := Step(v, toks[0]).value;
    (v.Arr? && toks[0] == "" && Lookup(next, toks[1..]).Some?) || EmptyIndexUsed(next, toks[1..])
  }

  /** The pointer designates a null that is an element of an array. */
  predicate NullElement(v: Json, toks: seq<string>)
    decreases |toks|
  {
    toks != [] && RfcStep(v, toks[0]).Some? &&
    if |toks| == 1 then v.Arr? && RfcStep(v, toks[0]).value.Null?
    else NullElement(RfcStep(v, toks[0]).value, toks[1..])
  }

  lemma {:induction false} EmptyIndexFinds(v: Json, toks: seq<string>)
    requires EmptyIndexUsed(v, toks)
    ensures Lookup(v, toks).Some?
    decreases |toks|
  {
    var next := Step(v, toks[0]).value;
    if EmptyIndexUsed(next, toks[1..]) {
      EmptyIndexFinds(next, toks[1..]);
    }
  }

  lemma StepAgrees(v: Json, t: string)
    requires v.Arr? ==> |v.elems| <= UINT64_MAX
    ensures v.Arr? && t == "" ==> RfcStep(v, t).None?
    ensures !(v.Arr? && t == "") && RfcStep(v, t) != Step(v, t) ==>
              v.Arr? && Step(v, t).None? && RfcStep(v, t) == Some(Null)
    ensures v.Arr? && RfcStep(v, t) == Some(Null) ==> Step(v, t).None?
  {
    if v.Arr? && t != "" {
      hide ReadIndex, RfcIndex;
      IndexAgrees(t, |v.elems|);
    } else if v.Obj? {
      UnescapedIsDecoded(t);
    }
  }

  /**
   A lookup gives what RFC 6901 section 4 says, except exactly when it gets through an array with an
   empty token, or the value is a null in an array, which the code reports as missing.
   */
  lemma {:induction false} LookupIsRfcExactly(v: Json, toks: seq<string>)
    requires LengthsFit(v, toks)
    ensures Lookup(v, toks) == RfcEval(v, toks) <==> !EmptyIndexUsed(v, toks) && !NullElement(v, toks)
    decreases |toks|
  {
    if toks != [] {
      hide ReadIndex, RfcIndex, Unescaped, Decoded;
      var t, rest := toks[0], toks[1..];
      var c, r := Step(v, t), RfcStep(v, t);
      StepAgrees(v, t);
      if v.Arr? && t == "" {
        if EmptyIndexUsed(v, toks) {
          EmptyIndexFinds(v, toks);
        }
      } else if c == r {
        if c.Some? {
          LookupIsRfcExactly(c.value, rest);
        }
      } else if rest != [] {
        assert RfcStep(Null, rest[0]).None?;
      }
    }
  }

  // ------------------------------------------------------------ setting

  /**
   `json_pointer_set_single_path`; `room` says whether the container has or finds room. The token is used as
   it is.
   */
  function SetSingle(v: Json, t: string, val: Json, room: bool): Option<Json> {
    if v.Arr? then
      if t == "-" then if room then Some(Arr(v.elems + [val])) else None
      else
        var i := ReadIndex(t);
        if i.None? || i.value > SIZE_T_MAX - 1 || !room then None else Some(Arr(PutAt(v.elems, i.value, val, Null)))
    else if v.Obj? then if room || Has(v.fields, t) then Some(Obj(Put(v.fields, t, val))) else None
    else None
  }

  /** The tree with the member that `t` leads to replaced. */
  function Graft(v: Json, t: string, member: Json): Json
    requires Step(v, t).Some?
  {
    if v.Arr? then Arr(v.elems[ReadIndex(t).value := member])
    else Obj(v.fields[Find(v.fields, Unescaped(t)) := Pair(Unescaped(t), member)])
  }

  /** The tree after a successful set below its root. */
  function SetIn(v: Json, toks: seq<string>, val: Json, room: bool): Option<Json>
    requires toks != []
    decreases |toks|
  {
    if |toks| == 1 then SetSingle(v, toks[0], val, room)
    else
      var next := Step(v, toks[0]);
      if next.None? then None
      else
        var r := SetIn(next.value, toks[1..], val, room);
        if r.None? then None else Some(Graft(v, toks[0], r.value))
  }

  /** After a graft the same token leads to the new member, unless that is a null in an array. */
  lemma GraftStep(v: Json, t: string, member: Json, u: string)
    requires Step(v, t).Some?
    ensures var w := Graft(v, t, member);
            if v.Arr? then
              Step(w, u) == (if ReadIndex(u) != ReadIndex(t) then Step(v, u)
                             else if member.Null? then None else Some(member))
            else Step(w, u) == if Unescaped(u) == Unescaped(t) then Some(member) else Step(v, u)
  {
    hide ReadIndex, Unescaped;
    if !v.Arr? {
      PutThenGet(v.fields, Unescaped(t), member, Unescaped(u));
    }
  }

  /** What stands at the set's last token afterwards. */
  lemma SingleStep(v: Json, t: string, val: Json, room: bool, u: string)
    requires SetSingle(v, t, val, room).Some?
    ensures var w := SetSingle(v, t, val, room).value;
            if v.Arr? then
              var at := if t == "-" then Some(|v.elems|) else ReadIndex(t);
              Step(w, u) == (if ReadIndex(u) == at then if val.Null? then None else Some(val) else Step(v, u))
            else Step(w, u) == if Unescaped(u) == t then Some(val) else Step(v, u)
  {
    hide ReadIndex, Unescaped;
    if !v.Arr? {
      PutThenGet(v.fields, t, val, Unescaped(u));
    }
  }

  /** A set value is never replaced by null on the way up. */
  lemma SetInNotNull(v: Json, toks: seq<string>, val: Json, room: bool)
    requires toks != [] && SetIn(v, toks, val, room).Some?
    ensures !SetIn(v, toks, val, room).value.Null?
  {
  }

  /**
   Where a get after the set finds the value. The last token is not unescaped, so on an object it has
   to be free of escapes (or the key it escapes already held the value); "-" is not an index; and a
   null element counts as missing.
   */
  predicate Lands(v: Json, toks: seq<string>, val: Json)
    requires toks != []
    decreases |toks|
  {
    if |toks| > 1 then Step(v, toks[0]).Some? && Lands(Step(v, toks[0]).value, toks[1..], val)
    else if v.Arr? then toks[0] != "-" && !val.Null?
    else v.Obj? && ((!Holds(toks[0], '0') && !Holds(toks[0], '1')) || Get(v.fields, Unescaped(toks[0])) == Some(val))
  }

  /** After a successful set, a get of the same pointer returns the value exactly when it lands. */
  lemma {:induction false} GetAfterSetExactly(v: Json, toks: seq<string>, val: Json, room: bool)
    requires toks != [] && SetIn(v, toks, val, room).Some?
    ensures Lookup(SetIn(v, toks, val, room).value, toks) == Some(val) <==> Lands(v, toks, val)
    decreases |toks|
  {
    hide Unescaped, Holds, PutAt;
    var w, t := SetIn(v, toks, val, room).value, toks[0];
    if |toks| == 1 {
      assert toks[1..] == [];
      SingleStep(v, t, val, room, t);
      UnescapedSame(t);
      NotAnIndex();
    } else {
      hide ReadIndex, SetSingle;
      var next, rest := Step(v, t).value, toks[1..];
      var r := SetIn(next, rest, val, room).value;
      SetInNotNull(next, rest, val, room);
      GraftStep(v, t, r, t);
      GetAfterSetExactly(next, rest, val, room);
    }
  }

  /** A set under an escaped key stores it as it is spelled, so a get of the same pointer finds nothing. */
  lemma EscapedSetIsLost()
    ensures var after := SetIn(Obj([]), ["a~1b"], Int(1), true);
            after == Some(Obj([Pair("a~1b", Int(1))])) && Lookup(after.value, ["a~1b"]) == None
  {
    UnescapedIsDecoded("a~1b");
    assert Decoded("a~1b") == "a/b" by {
      assert "a~1b"[1..] == "~1b" && "~1b"[2..] == "b" && "b"[1..] == "";
    }
    assert ["a~1b"][1..] == [];
    assert [] + [Pair("a~1b", Int(1))] == [Pair("a~1b", Int(1))];
  }

  /** An empty token leads to the first element, where section 4 of RFC 6901 has an error. */
  lemma EmptyTokenIsFirst()
    ensures Lookup(Arr([Int(1)]), [""]) == Some(Int(1)) && RfcEval(Arr([Int(1)]), [""]) == None
  {
    assert [""][1..] == [];
  }

  lemma NotAnIndex()
    ensures ReadIndex("-") == None
  {
  }

  /** The pointer `q` leaves the way of `toks` before either ends. */
  predicate Diverges(v: Json, toks: seq<string>, q: seq<string>)
    decreases |toks|
  {
    toks != [] && q != [] &&
    if |toks| == 1 then
      (v.Arr? ==> ReadIndex(q[0]) != if toks[0] == "-" then Some(|v.elems|) else ReadIndex(toks[0]))
      && (v.Obj? ==> Unescaped(q[0]) != toks[0])
    else
      (v.Arr? && ReadIndex(q[0]) != ReadIndex(toks[0]))
      || (v.Obj? && Unescaped(q[0]) != Unescaped(toks[0]))
      || (Step(v, toks[0]).Some? && Diverges(Step(v, toks[0]).value, toks[1..], q[1..]))
  }

  /** A pointer that leaves the way of the set evaluates as before. */
  lemma {:induction false} SetKeepsOthers(v: Json, toks: seq<string>, val: Json, room: bool, q: seq<string>)
    requires toks != [] && SetIn(v, toks, val, room).Some? && Diverges(v, toks, q)
    ensures Lookup(SetIn(v, toks, val, room).value, q) == Lookup(v, q)
    decreases |toks|
  {
    hide Unescaped, PutAt, ReadIndex;
    var t := toks[0];
    if |toks| == 1 {
      SingleStep(v, t, val, room, q[0]);
    } else {
      hide SetSingle;
      var next, rest := Step(v, t).value, toks[1..];
      var r := SetIn(next, rest, val, room).value;
      SetInNotNull(next, rest, val, room);
      GraftStep(v, t, r, q[0]);
      if (v.Arr? && ReadIndex(q[0]) == ReadIndex(t)) || (v.Obj? && Unescaped(q[0]) == Unescaped(t)) {
        assert Step(v, q[0]) == Step(v, t);
        SetKeepsOthers(next, rest, val, room, q[1..]);
      }
    }
  }

  /** A pointer the set passes through leads to the old subtree with the rest of the set done in it. */
  lemma {:induction false} SetSeenFromPrefix(v: Json, toks: seq<string>, val: Json, room: bool, n: nat)
    requires n < |toks| && SetIn(v, toks, val, room).Some?
    ensures Lookup(v, toks[..n]).Some?
    ensures Lookup(SetIn(v, toks, val, room).value, toks[..n]) == SetIn(Lookup(v, toks[..n]).value, toks[n..], val,
        room)
    decreases |toks|
  {
    if n == 0 {
      assert toks[..0] == [] && toks[0..] == toks;
    } else {
      hide Unescaped, PutAt, ReadIndex, SetSingle;
      var t, next, rest := toks[0], Step(v, toks[0]).value, toks[1..];
      var r := SetIn(next, rest, val, room).value;
      SetInNotNull(next, rest, val, room);
      GraftStep(v, t, r, t);
      SetSeenFromPrefix(next, rest, val, room, n - 1);
      assert toks[..n][0] == t && toks[..n][1..] == rest[..n - 1] && toks[n..] == rest[n - 1..];
    }
  }

  // ------------------------------------------------------------ pointers that differ as texts

  lemma {:induction false} ValuePositive(s: string)
    requires AllDigits(s) && s != "" && s[0] != '0'
    ensures Value(s) > 0
  {
    if |s| == 1 {
      assert s[..0] == "";
    } else {
      ValuePositive(s[..|s| - 1]);
    }
  }

  /** A number without leading zeros is the printed form of its value. */
  lemma {:induction false} DigitsOfValue(s: string)
    requires AllDigits(s) && s != "" && (|s| == 1 || s[0] != '0')
    ensures Digits(Value(s)) == s
  {
    var front := s[..|s| - 1];
    if |s| == 1 {
      assert front == "" && s == [s[0]];
    } else {
      if |front| > 1 || front[0] != '0' {
        ValuePositive(front);
      }
      DigitsOfValue(front);
      assert Value(s) / 10 == Value(front) && Value(s) % 10 == DigitValue(s[|s| - 1]);
      assert s == front + [s[|s| - 1]];
    }
  }

  lemma IndexInjective(a: string, b: string)
    requires a != "" && b != "" && ReadIndex(a).Some? && ReadIndex(a) == ReadIndex(b) && ReadIndex(a).value < UINT64_MAX
    ensures a == b
  {
    IndexIsCanonical(a);
    IndexIsCanonical(b);
  }

  lemma IndexIsCanonical(t: string)
    requires t != "" && ReadIndex(t).Some? && ReadIndex(t).value < UINT64_MAX
    ensures Digits(ReadIndex(t).value) == t
  {
    hide Digits;
    if |t| == 1 {
      assert t == [t[0]];
      ValueOfOne(t[0]);
    }
    DigitsOfValue(t);
  }

  /** Not empty and without a '~'. */
  predicate Plain(t: string) {
    t != "" && '~' !in t
  }

  lemma PlainIsItself(t: string)
    requires Plain(t)
    ensures Unescaped(t) == t
  {
    UnescapedSame(t);
  }

  /** Pointers whose first different tokens are plain diverge in every tree the set succeeds on. */
  lemma {:induction false} PlainTokensDiverge(v: Json, toks: seq<string>, val: Json, room: bool, q: seq<string>, i: nat)
    requires toks != [] && SetIn(v, toks, val, room).Some? && LengthsFit(v, toks)
    requires i < |toks| && i < |q| && toks[..i] == q[..i] && toks[i] != q[i] && Plain(toks[i]) && Plain(q[i])
    requires i == |toks| - 1 ==> toks[i] != "-"
    ensures Diverges(v, toks, q)
    decreases |toks|
  {
    hide ReadIndex, Unescaped, Plain, PutAt;
    var t := toks[0];
    if i == 0 {
      PlainIsItself(t);
      PlainIsItself(q[0]);
      if v.Arr? && ReadIndex(t).Some? && ReadIndex(q[0]) == ReadIndex(t) {
        assert t != "" && q[0] != "" by {
          PlainNotEmpty(t);
          PlainNotEmpty(q[0]);
        }
        assert ReadIndex(t).value < UINT64_MAX;
        IndexInjective(t, q[0]);
      }
    } else {
      assert t == toks[..i][0] == q[..i][0] == q[0];
      assert toks[1..][..i - 1] == toks[..i][1..] == q[..i][1..] == q[1..][..i - 1];
      PlainTokensDiverge(Step(v, t).value, toks[1..], val, room, q[1..], i - 1);
    }
  }

  lemma PlainNotEmpty(t: string)
    requires Plain(t)
    ensures t != ""
  {
  }

  // ------------------------------------------------------------ paths as texts

  /** The position of the first '/', or the length. */
  function FirstSlash(s: string): (n: nat)
    ensures n <= |s| && (n < |s| ==> s[n] == '/') && forall i :: 0 <= i < n ==> s[i] != '/'
  {
    if s == "" || s[0] == '/' then 0 else 1 + FirstSlash(s[1..])
  }

  function Split(s: string): seq<string>
    decreases |s|
  {
    var n := FirstSlash(s);
    if n == |s| then [s] else [s[..n]] + Split(s[n + 1..])
  }

  /** `json_pointer_result_get_recursive` on a whole path. */
  function LookupPath(v: Json, path: string): Option<Json> {
    if path == "" || path[0] != '/' then None else Lookup(v, Split(path[1..]))
  }

  /** Every occurrence before the first is none. */
  lemma {:induction false} ReplacedFirst(s: string, n: nat, x: char, repl: char)
    requires n + 1 < |s| && s[n] == '~' && s[n + 1] == x
    requires forall i :: 0 <= i < n ==> !(s[i] == '~' && s[i + 1] == x)
    ensures Replaced(s, x, repl) == s[..n] + [repl] + Replaced(s[n + 2..], x, repl)
  {
    hide Replaced;
    if n == 0 {
      assert s == ['~', x] + s[2..];
      ReplacedOccurrence(s[2..], x, repl);
    } else {
      assert s == [s[0]] + s[1..];
      ReplacedStep(s[0], s[1..], x, repl);
      ReplacedFirst(s[1..], n - 1, x, repl);
      assert s[1..][n - 1 + 2..] == s[n + 2..];
      assert s[..n] == [s[0]] + s[1..][..n - 1];
    }
  }

  lemma {:induction false} ReplacedNone(s: string, x: char, repl: char)
    requires forall i :: 0 <= i < |s| - 1 ==> !(s[i] == '~' && s[i + 1] == x)
    ensures Replaced(s, x, repl) == s
  {
    if |s| >= 2 {
      ReplacedNone(s[1..], x, repl);
      assert s == [s[0]] + s[1..];
    }
  }

  /** `strstr` for a two-character occurrence; -1 for NULL. */
  method FindOccurrence(s: array<char>, p: nat, end: nat, x: char) returns (n: int)
    requires p <= end < s.Length
    ensures n == -1 ==> forall i :: p <= i < end - 1 ==> !(s[i] == '~' && s[i + 1] == x)
    ensures n != -1 ==> p <= n < end - 1 && s[n] == '~' && s[n + 1] == x
                        && forall i :: p <= i < n ==> !(s[i] == '~' && s[i + 1] == x)
  {
    n := p;
    while n < end - 1
      invariant p <= n && forall i :: p <= i < n && i < end - 1 ==> !(s[i] == '~' && s[i + 1] == x)
    {
      if s[n] == '~' && s[n + 1] == x {
        return n;
      }
      n := n + 1;
    }
    return -1;
  }

  /** One turn: the replacement, and the rest moved down with its NUL. */
  method ReplaceOne(s: array<char>, q: nat, end: nat, repl: char)
    requires q + 1 < end < s.Length
    modifies s
    ensures s[q] == repl
    ensures forall i :: q < i < end ==> s[i] == old(s[i + 1])
    ensures forall i :: 0 <= i < s.Length && (i < q || end <= i) ==> s[i] == old(s[i])
  {
    s[q] := repl;
    forall i | q + 1 <= i < end {
      s[i] := s[i + 1];
    }
  }

  /** Between turns: the part before `p` is final, the rest is still to be searched. */
  ghost predicate HalfReplaced(s: seq<char>, from: nat, p: nat, end: nat, x: char, repl: char, want: string) {
    && from <= p <= end < |s| && s[end] == NUL
    && (forall i :: from <= i < end ==> s[i] != NUL)
    && want == s[from..p] + Replaced(s[p..end], x, repl)
  }

  lemma ReplaceTurn(c: seq<char>, d: seq<char>, from: nat, p: nat, q: nat, end: nat, x: char, repl: char, want: string)
    requires HalfReplaced(c, from, p, end, x, repl, want) && repl != NUL && |c| == |d|
    requires p <= q < end - 1 && c[q] == '~' && c[q + 1] == x
    requires forall i :: p <= i < q ==> !(c[i] == '~' && c[i + 1] == x)
    requires d[q] == repl && (forall i :: q < i < end ==> d[i] == c[i + 1])
    requires forall i :: 0 <= i < |c| && (i < q || end <= i) ==> d[i] == c[i]
    ensures HalfReplaced(d, from, q + 1, end - 1, x, repl, want)
  {
    hide Replaced;
    var todo := c[p..end];
    ReplacedFirst(todo, q - p, x, repl);
    assert todo[..q - p] == c[p..q] && todo[q - p + 2..] == c[q + 2..end] == d[q + 1..end - 1];
    assert d[from..q + 1] == c[from..p] + c[p..q] + [repl];
    assert d[end - 1] == c[end - 1 + 1];
    assert c[from..p] + (c[p..q] + [repl] + Replaced(d[q + 1..end - 1], x, repl))
        == c[from..p] + c[p..q] + [repl] + Replaced(d[q + 1..end - 1], x, repl);
  }

  lemma ReplaceDone(c: seq<char>, from: nat, p: nat, end: nat, x: char, repl: char, want: string)
    requires HalfReplaced(c, from, p, end, x, repl, want)
    requires forall i :: p <= i < end - 1 ==> !(c[i] == '~' && c[i + 1] == x)
    ensures c[from..end] == want && NulFree(c[from..end])
  {
    hide Replaced;
    ReplacedNone(c[p..end], x, repl);
    assert c[from..end] == c[from..p] + c[p..end];
  }

  lemma ReplaceStart(c: seq<char>, from: nat, end: nat, x: char, repl: char)
    requires from <= end < |c| && c[end] == NUL && NulFree(c[from..end])
    ensures HalfReplaced(c, from, from, end, x, repl, Replaced(c[from..end], x, repl))
  {
    hide Replaced;
    forall i | from <= i < end
      ensures c[i] != NUL
    {
      assert c[from..end][i - from] == c[i];
    }
    assert c[from..from] == "";
  }

  /** `string_replace_all_occurrences_with_char`, on the C string from `from` to the NUL at `end`. */
  method ReplaceAll(s: array<char>, from: nat, end: nat, x: char, repl: char) returns (newEnd: nat)
    requires from <= end < s.Length && s[end] == NUL && NulFree(s[from..end]) && repl != NUL
    modifies s
    ensures from <= newEnd <= end && s[newEnd] == NUL && NulFree(s[from..newEnd])
    ensures s[from..newEnd] == Replaced(old(s[from..end]), x, repl)
    ensures forall i :: 0 <= i < s.Length && (i < from || end <= i) ==> s[i] == old(s[i])
  {
    hide Replaced, HalfReplaced, NulFree;
    ghost var want := Replaced(s[from..end], x, repl);
    newEnd := end;
    var p := from;
    assert s[..][from..end] == s[from..end];
    ReplaceStart(s[..], from, end, x, repl);
    while true
      invariant from <= p <= newEnd <= end && HalfReplaced(s[..], from, p, newEnd, x, repl, want)
      invariant forall i :: 0 <= i < s.Length && (i < from || end <= i) ==> s[i] == old(s[i])
      decreases newEnd
    {
      ghost var c := s[..];
      var q := FindOccurrence(s, p, newEnd, x);
      if q == -1 {
        ReplaceDone(c, from, p, newEnd, x, repl, want);
        EndsInNul(c, from, p, newEnd, x, repl, want);
        assert s[from..newEnd] == c[from..newEnd];
        break;
      }
      ReplaceOne(s, q, newEnd, repl);
      ReplaceTurn(c, s[..], from, p, q, newEnd, x, repl, want);
      newEnd := newEnd - 1;
      p := q + 1;
    }
  }

  lemma EndsInNul(c: seq<char>, from: nat, p: nat, end: nat, x: char, repl: char, want: string)
    requires HalfReplaced(c, from, p, end, x, repl, want)
    ensures end < |c| && c[end] == NUL
  {
  }

  /** `is_valid_index`, with its loop. */
  method IsValidIndex(path: string) returns (idx: Option<nat>)
    ensures idx == ReadIndex(path)
  {
    if |path| == 1 {
      return if IsDigit(path[0]) then Some(DigitValue(path[0])) else None;
    }
    if path != "" && path[0] == '0' {
      return None;
    }
    var i := 0;
    while i < |path|
      invariant 0 <= i <= |path| && forall j :: 0 <= j < i ==> IsDigit(path[j])
    {
      if !IsDigit(path[i]) {
        return None;
      }
      i := i + 1;
    }
    DigitPrefixOfDigits(path);
    var n := ParseUInt64(path);
    return Some(if n.NoDigits? then 0 else n.value);
  }

  /** `json_pointer_get_single_path`: a token that names a key is unescaped where it stands. */
  method GetSinglePath(obj: Json, path: array<char>, from: nat, end: nat) returns (r: Option<Json>)
    requires from <= end < path.Length && path[end] == NUL && NulFree(path[from..end])
    modifies path
    ensures r == Step(obj, old(path[from..end]))
    ensures forall i :: 0 <= i < path.Length && (i < from || end <= i) ==> path[i] == old(path[i])
  {
    hide ReadIndex, Replaced, NulFree;
    if obj.Arr? {
      var idx := IsValidIndex(path[from..end]);
      if idx.None? {
        return None;
      }
      if idx.value >= |obj.elems| {
        return None;
      }
      var elem := obj.elems[idx.value];
      return if elem.Null? then None else Some(elem);
    }
    var mid := ReplaceAll(path, from, end, '1', '/');
    var last := ReplaceAll(path, from, mid, '0', '~');
    return if obj.Obj? then Get(obj.fields, path[from..last]) else None;
  }

  /** `strchr(path, '/')` from a position; the end of the string when there is none. */
  method FindSlash(path: array<char>, from: nat, end: nat) returns (n: nat)
    requires from <= end < path.Length
    ensures from <= n <= end && n - from == FirstSlash(path[from..end])
  {
    n := from;
    while n < end && path[n] != '/'
      invariant from <= n <= end && forall i :: from <= i < n ==> path[i] != '/'
    {
      n := n + 1;
    }
    FirstSlashIs(path[from..end], n - from);
  }

  lemma {:induction false} FirstSlashIs(s: string, n: nat)
    requires n <= |s| && (n < |s| ==> s[n] == '/') && forall i :: 0 <= i < n ==> s[i] != '/'
    ensures FirstSlash(s) == n
  {
    if n > 0 {
      FirstSlashIs(s[1..], n - 1);
    }
  }

  /** `json_pointer_result_get_recursive`: the next '/' is cut to end the token, and put back. */
  method GetRecursive(obj: Json, path: array<char>, at: nat, end: nat) returns (r: Option<Json>)
    requires at <= end < path.Length && path[end] == NUL && NulFree(path[at..end])
    modifies path
    ensures r == LookupPath(obj, old(path[at..end]))
    ensures forall i :: 0 <= i < path.Length && (i < at || end <= i) ==> path[i] == old(path[i])
    decreases end - at
  {
    hide Step, NulFree, FirstSlash, LookupPath;
    ghost var whole := path[at..end];
    if path[at] != '/' {
      NoLeadingSlash(obj, whole);
      return None;
    }
    var from := at + 1;
    assert at != end;
    assert whole[1..] == path[from..end];
    var endp := FindSlash(path, from, end);
    ghost var tok, later := path[from..endp], path[endp..end];
    PathPieces(obj, whole, endp - from);
    assert whole[1..][..endp - from] == tok && whole[1..][endp - from..] == later;
    if endp < end {
      path[endp] := NUL;
    }
    assert path[from..endp] == tok;
    var next := GetSinglePath(obj, path, from, endp);
    if next.None? {
      return None;
    }
    if endp < end {
      path[endp] := '/';
      assert path[endp..end] == later;
      r := GetRecursive(next.value, path, endp, end);
      return;
    }
    return next;
  }

  lemma NoLeadingSlash(v: Json, path: string)
    requires path == "" || path[0] != '/'
    ensures LookupPath(v, path) == None
  {
  }

  lemma PathPieces(v: Json, path: string, n: nat)
    requires path != "" && path[0] == '/' && n == FirstSlash(path[1..]) && NulFree(path)
    ensures n <= |path| - 1 && NulFree(path[1..][..n]) && NulFree(path[1..][n..])
    ensures n < |path| - 1 ==> path[1..][n] == '/'
    ensures LookupPath(v, path) ==
            var next := Step(v, path[1..][..n]);
            if next.None? then None
            else if n == |path| - 1 then next
            else LookupPath(next.value, path[1..][n..])
  {
    hide Step, NulFree, LookupPath, Split;
    PathParts(v, path, n);
    NulFreePart(path, 1, |path|);
    NulFreePart(path[1..], 0, n);
    NulFreePart(path[1..], n, |path| - 1);
    assert path[1..|path|] == path[1..] && path[1..][0..n] == path[1..][..n] &&
        path[1..][n..|path| - 1] == path[1..][n..];
  }

  lemma NulFreePart(s: string, a: nat, b: nat)
    requires NulFree(s) && a <= b <= |s|
    ensures NulFree(s[a..b])
  {
  }

  /** One level of a path lookup. */
  lemma PathParts(v: Json, path: string, n: nat)
    requires path != "" && path[0] == '/' && n == FirstSlash(path[1..])
    ensures n <= |path| - 1
    ensures LookupPath(v, path) ==
            var next := Step(v, path[1..][..n]);
            if next.None? then None
            else if n == |path| - 1 then next
            else LookupPath(next.value, path[1..][n..])
  {
    hide Step;
    var s := path[1..];
    if n == |s| {
      assert s[..n] == s && Split(s) == [s] && Split(s)[1..] == [];
      assert Lookup(v, Split(s)) == if Step(v, s).None? then None else Lookup(Step(v, s).value, []);
    } else {
      assert Split(s)[1..] == Split(s[n + 1..]);
      assert s[n..][1..] == s[n + 1..];
    }
  }

  /** `strdup`. */
  method Duplicate(s: string) returns (copy: array<char>)
    ensures fresh(copy) && copy.Length == |s| + 1 && copy[..|s|] == s && copy[|s|] == NUL
  {
    copy := new char[|s| + 1](_ => NUL);
    forall i | 0 <= i < |s| {
      copy[i] := s[i];
    }
  }

  /** `json_pointer_get`; the null pointer is no object to look in. */
  method JsonPointerGet(obj: Json, path: string) returns (r: Option<Json>)
    requires NulFree(path)
    ensures r == if obj.Null? then None else if path == "" then Some(obj) else LookupPath(obj, path)
  {
    if obj.Null? {
      return None;
    }
    if path == "" {
      return Some(obj);
    }
    var copy := Duplicate(path);
    assert copy[0..|path|] == path;
    r := GetRecursive(obj, copy, 0, |path|);
  }

  // ------------------------------------------------------------ setting through a path

  /** The tree with the place that the tokens lead to replaced: what the change in place does to it. */
  function Rebuilt(v: Json, toks: seq<string>, member: Json): Json
    requires Lookup(v, toks).Some?
    decreases |toks|
  {
    if toks == [] then member else Graft(v, toks[0], Rebuilt(Step(v, toks[0]).value, toks[1..], member))
  }

  lemma {:induction false} SetInParts(v: Json, toks: seq<string>, t: string, val: Json, room: bool)
    ensures SetIn(v, toks + [t], val, room) ==
            var parent := Lookup(v, toks);
            if parent.None? then None
            else
              var r := SetSingle(parent.value, t, val, room);
              if r.None? then None else Some(Rebuilt(v, toks, r.value))
    decreases |toks|
  {
    hide Step, SetSingle, Graft;
    if toks == [] {
      assert toks + [t] == [t];
    } else {
      assert (toks + [t])[1..] == toks[1..] + [t];
      if Step(v, toks[0]).Some? {
        SetInParts(Step(v, toks[0]).value, toks[1..], t, val, room);
      }
    }
  }

  lemma {:induction false} SplitLast(s: string, n: nat)
    requires n < |s| && s[n] == '/' && forall i :: n < i < |s| ==> s[i] != '/'
    ensures Split(s) == Split(s[..n]) + [s[n + 1..]]
    decreases |s|
  {
    hide FirstSlash;
    var f := FirstSlash(s);
    if f == n {
      FirstSlashIs(s[..n], n);
      FirstSlashIs(s[n + 1..], |s| - n - 1);
    } else {
      assert f < n;
      FirstSlashIs(s[..n], f);
      SplitLast(s[f + 1..], n - f - 1);
      assert s[f + 1..][..n - f - 1] == s[..n][f + 1..];
      assert s[f + 1..][n - f - 1 + 1..] == s[n + 1..];
      assert [s[..f]] + (Split(s[..n][f + 1..]) + [s[n + 1..]]) == [s[..f]] + Split(s[..n][f + 1..]) + [s[n + 1..]];
      assert s[..n][..f] == s[..f];
    }
  }

  lemma NoSlashSplit(s: string)
    requires forall i :: 0 <= i < |s| ==> s[i] != '/'
    ensures Split(s) == [s]
  {
  }

  /** `strrchr(path, '/')`. */
  method FindLastSlash(path: string) returns (n: nat)
    requires path != "" && path[0] == '/'
    ensures n < |path| && path[n] == '/' && forall i :: n < i < |path| ==> path[i] != '/'
  {
    n := |path| - 1;
    while path[n] != '/'
      invariant n < |path| && forall i :: n < i < |path| ==> path[i] != '/'
      decreases n
    {
      n := n - 1;
    }
  }

  lemma SplitAtLast(path: string, endp: nat)
    requires 0 < endp < |path| && path[endp] == '/' && forall i :: endp < i < |path| ==> path[i] != '/'
    ensures Split(path[1..]) == Split(path[..endp][1..]) + [path[endp + 1..]]
  {
    hide Split;
    SplitLast(path[1..], endp - 1);
    assert path[1..][..endp - 1] == path[..endp][1..] && path[1..][endp - 1 + 1..] == path[endp + 1..];
  }

  /** The path up to its last slash, evaluated on a copy that ends there. */
  method FindParent(obj: Json, path: string, endp: nat) returns (r: Option<Json>)
    requires NulFree(path) && endp < |path|
    ensures r == LookupPath(obj, path[..endp])
  {
    hide NulFree, LookupPath;
    var copy := Duplicate(path[..endp]);
    assert copy[0..endp] == path[..endp] == path[0..endp];
    NulFreePart(path, 0, endp);
    r := GetRecursive(obj, copy, 0, endp);
  }

  /** `json_pointer_set`: the tree afterwards, or None when it fails. */
  method JsonPointerSet(obj: Json, path: string, val: Json, room: bool) returns (r: Option<Json>)
    requires NulFree(path)
    ensures r == if path == "" then Some(val)
                 else if path[0] != '/' then None
                 else SetIn(obj, Split(path[1..]), val, room)
  {
    hide SetSingle, Lookup, NulFree, Rebuilt, Split;
    if path == "" {
      return Some(val);
    }
    if path[0] != '/' {
      return None;
    }
    var endp := FindLastSlash(path);
    if endp == 0 {
      NoSlashSplit(path[1..]);
      r := SetSingle(obj, path[1..], val, room);
      return;
    }
    var parent := FindParent(obj, path, endp);
    var toks, last := Split(path[..endp][1..]), path[endp + 1..];
    SplitAtLast(path, endp);
    SetInParts(obj, toks, last, val, room);
    if parent.None? {
      return None;
    }
    var single := SetSingle(parent.value, last, val, room);
    return if single.None? then None else Some(Rebuilt(obj, toks, single.value));
  }
}
