/**
 Running the machine over a text it reads to the end, and what it does with the inside
 of a quoted string.
 */
module TokenerRun {
  import opened Basics
  import opened OrderedMap
  import opened JsonValue
  import opened TokenerMachine
  import opened TokenerCut
  import opened StringLiteral

  predicate CutShows(m: Mach, c: char) {
    m.top.state == NumberS && CutSensitive(m.pb, c)
  }

  /** The machine after reading all of `s`; None when it stops before, or meets a place where a cut could show. */
  function Eat(k: Config, m: Mach, s: string): (r: Option<Mach>)
    decreases |s|, Rank(m)
  {
    if s == "" then Some(m)
    else if CutShows(m, s[0]) then None
    else
      match Step(k, m, s[0])
      case Redo(m') => Eat(k, m', s)
      case Advance(m') => if s[0] == NUL then None else Eat(k, m', s[1..])
      case Halt(_, _) => None
  }

  /** A call on a text that begins with what was eaten goes on from there. */
  lemma {:induction false} EatThenCall(k: Config, m: Mach, s: string, t: string)
    requires Eat(k, m, s).Some?
    ensures Call(k, m, s + t) == Call(k, Eat(k, m, s).value, t)
    decreases |s|, Rank(m)
  {
    hide Step;
    if s == "" {
      assert s + t == t;
    } else {
      assert (s + t)[0] == s[0] && (s + t)[1..] == s[1..] + t;
      match Step(k, m, s[0]) {
        case Redo(m') => EatThenCall(k, m', s, t);
        case Advance(m') => EatThenCall(k, m', s[1..], t);
        case Halt(_, _) =>
      }
    }
  }

  lemma {:induction false} EatThenEat(k: Config, m: Mach, s: string, t: string)
    requires Eat(k, m, s).Some?
    ensures Eat(k, m, s + t) == Eat(k, Eat(k, m, s).value, t)
    decreases |s|, Rank(m)
  {
    hide Step;
    if s == "" {
      assert s + t == t;
    } else {
      assert (s + t)[0] == s[0] && (s + t)[1..] == s[1..] + t;
      match Step(k, m, s[0]) {
        case Redo(m') => EatThenEat(k, m', s, t);
        case Advance(m') => EatThenEat(k, m', s[1..], t);
        case Halt(_, _) =>
      }
    }
  }

  /** What is eaten can be cut anywhere. */
  lemma {:induction false} EatIsQuiet(k: Config, m: Mach, s: string, t: string)
    requires Inv(k, m) && NumberOk(m) && Eat(k, m, s).Some?
    ensures var r := Eat(k, m, s).value;
            Inv(k, r) && NumberOk(r) && (Quiet(k, r, t) ==> Quiet(k, m, s + t))
    decreases |s|, Rank(m)
  {
    hide Step, Inv, NumberOk, Spot, CutSensitive;
    if s == "" {
      assert s + t == t;
    } else {
      assert (s + t)[0] == s[0] && (s + t)[1..] == s[1..] + t;
      NoSpot(k, m, s[0]);
      StepKeepsInv(k, m, s[0]);
      NumberOkNext(k, m, s[0]);
      match Step(k, m, s[0]) {
        case Redo(m') => EatIsQuiet(k, m', s, t);
        case Advance(m') => EatIsQuiet(k, m', s[1..], t);
      }
    }
  }

  /** So can the end of the text. */
  lemma {:induction false} NulIsQuiet(k: Config, m: Mach)
    requires Inv(k, m) && NumberOk(m)
    ensures Quiet(k, m, [NUL])
    decreases Rank(m)
  {
    hide Step, Inv, NumberOk, Spot;
    NoSpot(k, m, NUL);
    if Step(k, m, NUL).Redo? {
      StepKeepsInv(k, m, NUL);
      NumberOkNext(k, m, NUL);
      NulIsQuiet(k, Step(k, m, NUL).m);
    }
  }

  /** One character read in a single turn. */
  lemma EatOne(k: Config, m: Mach, c: char)
    requires c != NUL && !CutShows(m, c) && Step(k, m, c).Advance?
    ensures Eat(k, m, [c]) == Some(Step(k, m, c).m)
  {
    hide Step;
    assert [c][1..] == "";
  }

  /** One character read after a turn that only changes state. */
  lemma EatAfterRedo(k: Config, m: Mach, c: char)
    requires !CutShows(m, c) && Step(k, m, c).Redo?
    ensures Eat(k, m, [c]) == Eat(k, Step(k, m, c).m, [c])
  {
    hide Step;
  }

  // ------------------------------------------------------------ which function a turn is

  lemma StartTurn(k: Config, m: Mach, c: char)
    requires m.top.state == Start
    ensures Step(k, m, c) == StepStart(k, m, c)
  {
    hide StepStart;
  }

  lemma LiteralTurn(k: Config, m: Mach, c: char)
    ensures m.top.state == Inf ==> Step(k, m, c) == StepInf(k, m, c)
    ensures m.top.state == NullLit ==> Step(k, m, c) == StepNull(k, m, c)
    ensures m.top.state == Boolean ==> Step(k, m, c) == StepBoolean(k, m, c)
    ensures m.top.state == NumberS ==> Step(k, m, c) == StepNumber(k, m, c)
    ensures m.top.state == CommentStart ==> Step(k, m, c) == StepComment(m, c)
    ensures m.top.state == Comment ==> Step(k, m, c) == StepComment(m, c)
    ensures m.top.state == CommentEol ==> Step(k, m, c) == StepComment(m, c)
    ensures m.top.state == CommentEnd ==> Step(k, m, c) == StepComment(m, c)
  {
    hide StepInf, StepNull, StepBoolean, StepNumber, StepComment;
  }

  lemma StackTurn(k: Config, m: Mach, c: char)
    ensures m.top.state == Finish ==> Step(k, m, c) == StepFinish(m)
    ensures m.top.state == ArrayAdd ==> Step(k, m, c) == StepArrayAdd(m)
    ensures m.top.state == ObjectValueAdd ==> Step(k, m, c) == StepObjectValueAdd(m)
    ensures m.top.state == ObjectValue ==> Step(k, m, c) == StepObjectValue(k, m)
    ensures m.top.state == Array || m.top.state == ArrayAfterSep ==> Step(k, m, c) == StepArray(k, m, c)
    ensures m.top.state == ArraySep ==> Step(k, m, c) == StepArraySep(m, c)
    ensures m.top.state == ObjectSep ==> Step(k, m, c) == StepObjectSep(m, c)
    ensures m.top.state == FieldStart || m.top.state == FieldStartAfterSep ==> Step(k, m, c) == StepFieldStart(k, m, c)
    ensures m.top.state == FieldEnd ==> Step(k, m, c) == StepFieldEnd(m, c)
  {
    hide StepFinish, StepArrayAdd, StepObjectValueAdd, StepObjectValue, StepArray, StepArraySep, StepObjectSep,
      StepFieldStart, StepFieldEnd;
  }

  lemma TextTurn(k: Config, m: Mach, c: char)
    requires TextState(m.top.state)
    ensures m.top.state == StringS ==> Step(k, m, c) == StepString(m, c)
    ensures m.top.state == ObjectField ==> Step(k, m, c) == StepField(m, c)
    ensures m.top.state == StringEscape ==> Step(k, m, c) == StepEscape(m, c)
    ensures m.top.state == EscapeUnicode ==> Step(k, m, c) == StepUnicode(m, c)
    ensures m.top.state == NeedEscape ==> Step(k, m, c) == StepNeedEscape(m, c)
    ensures m.top.state == NeedU ==> Step(k, m, c) == StepNeedU(m, c)
  {
    hide StepString, StepField, StepEscape, StepUnicode, StepNeedEscape, StepNeedU;
  }

  // ------------------------------------------------------------ inside a quoted string

  /** Between two items: text `pb` so far, `high` waiting; `body` says whether a value or a key is read. */
  predicate AtItem(m: Mach, body: State, q: char, high: nat, pb: string) {
    && (body == StringS || body == ObjectField)
    && m.quote == q && m.pb == pb && m.high == high && m.top.saved != Finish
    && (if high == 0 then m.top.state == body
        else m.top.state == NeedEscape && m.top.saved == body && m.stPos == 0 && m.ucs == 0)
  }

  /** What reading inside a string leaves alone. */
  predicate SamePlace(a: Mach, b: Mach) {
    && a.below == b.below && a.top.current == b.top.current && a.top.field == b.top.field
    && a.isDouble == b.isDouble && a.quote == b.quote && a.num == b.num && a.obj == b.obj
  }

  /** A plain character, after giving up on a waiting surrogate. */
  lemma EatRaw(k: Config, m: Mach, body: State, q: char, high: nat, pb: string, c: char) returns (r: Mach)
    requires AtItem(m, body, q, high, pb) && ItemOk(q, Raw(c))
    ensures Eat(k, m, [c]) == Some(r) && SamePlace(m, r)
    ensures AtItem(r, body, q, 0, pb + Flush(high) + [c])
  {
    hide Eat, Step;
    var b := Flushed(k, m, body, q, high, pb, c);
    TextTurn(k, b, c);
    EatOne(k, b, c);
    r := Step(k, b, c).m;
  }

  lemma Flushed(k: Config, m: Mach, body: State, q: char, high: nat, pb: string, c: char) returns (r: Mach)
    requires AtItem(m, body, q, high, pb) && c != '\\'
    ensures AtItem(r, body, q, 0, pb + Flush(high)) && SamePlace(m, r)
    ensures Eat(k, m, [c]) == Eat(k, r, [c])
  {
    hide Eat, Step;
    if high == 0 {
      r := m;
      assert pb + Flush(high) == pb;
    } else {
      TextTurn(k, m, c);
      EatAfterRedo(k, m, c);
      r := Step(k, m, c).m;
    }
  }

  /** The character behind the backslash. */
  lemma EatEscaped(k: Config, m: Mach, e: char) returns (r: Mach)
    requires SimpleEscape(e).Some?
    requires m.top.state == StringEscape || m.top.state == NeedU
    ensures Eat(k, m, [e]) == Some(r) && SamePlace(m, r)
    ensures r.top.state == m.top.saved == r.top.saved
    ensures r.high == (if m.top.state == NeedU then 0 else m.high)
    ensures r.pb == m.pb + (if m.top.state == NeedU then REPLACEMENT else "") + [SimpleEscape(e).value]
  {
    hide Eat, Step;
    var b := m;
    TextTurn(k, m, e);
    if m.top.state == NeedU {
      EatAfterRedo(k, m, e);
      b := Step(k, m, e).m;
      TextTurn(k, b, e);
    } else {
      assert m.pb + "" == m.pb;
    }
    EatOne(k, b, e);
    r := Step(k, b, e).m;
  }

  /** The backslash in front of an escape. */
  lemma EatBackslash(k: Config, m: Mach, body: State, q: char, high: nat, pb: string) returns (r: Mach)
    requires AtItem(m, body, q, high, pb) && q != '\\'
    ensures Eat(k, m, ['\\']) == Some(r) && SamePlace(m, r)
    ensures r.top.state == (if high == 0 then StringEscape else NeedU) && r.top.saved == body
    ensures r.pb == pb && r.high == high && (high != 0 ==> r.stPos == 0 && r.ucs == 0)
  {
    hide Eat, Step;
    TextTurn(k, m, '\\');
    EatOne(k, m, '\\');
    r := Step(k, m, '\\').m;
  }

  /** A backslash and the character behind it. */
  lemma EatShort(k: Config, m: Mach, body: State, q: char, high: nat, pb: string, e: char) returns (r: Mach)
    requires AtItem(m, body, q, high, pb) && ItemOk(q, Short(e)) && q != '\\'
    ensures Eat(k, m, ['\\', e]) == Some(r) && SamePlace(m, r)
    ensures AtItem(r, body, q, 0, pb + Flush(high) + [SimpleEscape(e).value])
  {
    hide Eat, Step, SimpleEscape;
    var a := EatBackslash(k, m, body, q, high, pb);
    EatThenEat(k, m, ['\\'], [e]);
    assert ['\\'] + [e] == ['\\', e];
    r := EatEscaped(k, a, e);
  }

  /** The two characters that open a \uXXXX escape. */
  lemma EatOpenUnit(k: Config, m: Mach, body: State, q: char, high: nat, pb: string) returns (r: Mach)
    requires AtItem(m, body, q, high, pb) && q != '\\'
    ensures Eat(k, m, ['\\', 'u']) == Some(r) && SamePlace(m, r)
    ensures r.top.state == EscapeUnicode && r.top.saved == body && r.stPos == 0 && r.ucs == 0
    ensures r.pb == pb && r.high == high
  {
    hide Eat, Step;
    var a := EatBackslash(k, m, body, q, high, pb);
    EatThenEat(k, m, ['\\'], ['u']);
    assert ['\\'] + ['u'] == ['\\', 'u'];
    TextTurn(k, a, 'u');
    EatOne(k, a, 'u');
    r := Step(k, a, 'u').m;
  }

  lemma EatDigit(k: Config, m: Mach, c: char)
    requires m.top.state == EscapeUnicode && IsHex(c) && m.stPos < 3
    ensures Eat(k, m, [c]) == Some(m.(ucs := m.ucs + HexValue(c) * Pow16(3 - m.stPos), stPos := m.stPos + 1))
  {
    hide Eat, Step, EscapeDone;
    TextTurn(k, m, c);
    EatOne(k, m, c);
  }

  lemma EatLastDigit(k: Config, m: Mach, c: char)
    requires m.top.state == EscapeUnicode && IsHex(c) && m.stPos == 3
    ensures Eat(k, m, [c]) == Some(EscapeDone(m, m.ucs + HexValue(c)))
  {
    hide Eat, Step, EscapeDone;
    TextTurn(k, m, c);
    assert Pow16(0) == 1;
    EatOne(k, m, c);
  }

  lemma DoneIgnoresCount(m: Mach, ucs: nat, stPos: nat, u: nat)
    ensures EscapeDone(m.(ucs := ucs, stPos := stPos), u) == EscapeDone(m, u)
  {
    hide Utf8Bytes, IsHighSurrogate, IsLowSurrogate;
  }

  lemma EatUnit(k: Config, m: Mach, i: Item) returns (r: Mach)
    requires m.top.state == EscapeUnicode && m.stPos == 0 && m.ucs == 0
    requires i.Unit? && IsHex(i.a) && IsHex(i.b) && IsHex(i.c3) && IsHex(i.d)
    ensures Eat(k, m, [i.a, i.b, i.c3, i.d]) == Some(r)
    ensures r == EscapeDone(m, UnitValue(i))
  {
    hide Eat, Step, EscapeDone;
    assert Pow16(1) == 16 && Pow16(2) == 256 && Pow16(3) == 4096;
    var s := [i.a, i.b, i.c3, i.d];
    EatDigit(k, m, i.a);
    var m1 := Eat(k, m, [i.a]).value;
    EatDigit(k, m1, i.b);
    var m2 := Eat(k, m1, [i.b]).value;
    EatDigit(k, m2, i.c3);
    var m3 := Eat(k, m2, [i.c3]).value;
    EatLastDigit(k, m3, i.d);
    r := Eat(k, m3, [i.d]).value;
    DoneIgnoresCount(m, m3.ucs, m3.stPos, UnitValue(i));
    EatThenEat(k, m, [i.a], [i.b]);
    EatThenEat(k, m, [i.a] + [i.b], [i.c3]);
    EatThenEat(k, m, [i.a] + [i.b] + [i.c3], [i.d]);
    assert s == [i.a] + [i.b] + [i.c3] + [i.d];
  }

  lemma DoneIsEffect(m: Mach, body: State, u: nat)
    requires u < 0x10000 && m.top.state == EscapeUnicode && m.top.saved == body
    requires body == StringS || body == ObjectField
    ensures var r, e := EscapeDone(m, u), UnitEffect(m.high, u);
            SamePlace(m, r) && AtItem(r, body, m.quote, e.high, m.pb + e.out)
  {
    hide Utf8Bytes;
    var e := UnitEffect(m.high, u);
    if m.high != 0 && IsLowSurrogate(u) {
      DecodeRange(m.high, u);
    }
    assert m.pb + Flush(m.high) + REPLACEMENT == m.pb + (Flush(m.high) + REPLACEMENT);
    var v := if m.high != 0 && IsLowSurrogate(u) then DecodePair(m.high, u) else u;
    assert m.pb + Flush(m.high) + Utf8Bytes(v) == m.pb + (Flush(m.high) + Utf8Bytes(v));
    assert m.pb + "" == m.pb;
    assert "" + Utf8Bytes(v) == Utf8Bytes(v);
  }

  /** Reading one item has exactly its effect. */
  lemma EatItem(k: Config, m: Mach, body: State, q: char, high: nat, pb: string, i: Item) returns (r: Mach)
    requires AtItem(m, body, q, high, pb) && ItemOk(q, i) && q != '\\'
    ensures Eat(k, m, ItemText(i)) == Some(r) && SamePlace(m, r)
    ensures var e := ItemEffect(q, high, i); AtItem(r, body, q, e.high, pb + e.out)
  {
    hide Eat, Step;
    match i
    case Raw(c) =>
      r := EatRaw(k, m, body, q, high, pb, c);
      assert pb + Flush(high) + [c] == pb + (Flush(high) + [c]);
    case Short(e) =>
      r := EatShort(k, m, body, q, high, pb, e);
      assert pb + Flush(high) + [SimpleEscape(e).value] == pb + (Flush(high) + [SimpleEscape(e).value]);
    case Unit(a, b, c, d) =>
      var o := EatOpenUnit(k, m, body, q, high, pb);
      r := EatUnit(k, o, i);
      EatThenEat(k, m, ['\\', 'u'], [a, b, c, d]);
      assert ItemText(i) == ['\\', 'u'] + [a, b, c, d];
      DoneIsEffect(o, body, UnitValue(i));
  }

  /** What reading a string up to its closing quote leaves behind. */
  predicate Closed(m: Mach, r: Mach, body: State, text: string) {
    && SamePlace(m, r.(top := r.top.(current := m.top.current, field := m.top.field)))
    && r.high == 0 && r.top.state == EatWs
    && (body == StringS ==>
          r.top.saved == Finish && r.top.current == Str(text) && r.top.field == m.top.field)
    && (body == ObjectField ==>
          r.top.saved == FieldEnd && r.top.field == Some(CString(text)) && r.top.current == m.top.current)
  }

  lemma EatClose(k: Config, m: Mach, body: State, q: char, high: nat, pb: string) returns (r: Mach)
    requires AtItem(m, body, q, high, pb) && (q == '"' || q == '\'')
    ensures Eat(k, m, [q]) == Some(r)
    ensures Closed(m, r, body, pb + Flush(high))
  {
    hide Eat, Step;
    var b := Flushed(k, m, body, q, high, pb, q);
    TextTurn(k, b, q);
    EatOne(k, b, q);
    r := Step(k, b, q).m;
  }

  lemma ClosedVia(m: Mach, a: Mach, r: Mach, body: State, text: string)
    requires SamePlace(m, a) && Closed(a, r, body, text)
    ensures Closed(m, r, body, text)
  {
  }

  /** Reading the inside of a string and its closing quote. */
  lemma {:induction false} EatItems(k: Config, m: Mach, body: State, q: char, high: nat, pb: string, items: seq<Item>)
    returns (r: Mach)
    requires AtItem(m, body, q, high, pb) && ItemsOk(q, items) && (q == '"' || q == '\'')
    ensures Eat(k, m, Text(items) + [q]) == Some(r)
    ensures Closed(m, r, body, pb + Meaning(q, high, items))
    decreases |items|
  {
    hide Eat, Step, ItemEffect, ItemText, ItemOk, AtItem, SamePlace, Closed;
    if items == [] {
      r := EatClose(k, m, body, q, high, pb);
      assert Text(items) + [q] == [q];
    } else {
      var e := ItemEffect(q, high, items[0]);
      var a := EatItem(k, m, body, q, high, pb, items[0]);
      r := EatItems(k, a, body, q, e.high, pb + e.out, items[1..]);
      ClosedVia(m, a, r, body, pb + e.out + Meaning(q, e.high, items[1..]));
      EatThenEat(k, m, ItemText(items[0]), Text(items[1..]) + [q]);
      assert Text(items) + [q] == ItemText(items[0]) + (Text(items[1..]) + [q]);
      assert pb + e.out + Meaning(q, e.high, items[1..]) == pb + (e.out + Meaning(q, e.high, items[1..]));
    }
  }
}
