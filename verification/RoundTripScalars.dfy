/**
 The parts of the round trip below containers: which trees take part, what the tokener
 does with one printed scalar, and how it ends a value when it sees the next character.
 */
module RoundTripScalars {
  import opened Basics
  import opened OrderedMap
  import opened JsonValue
  import opened Decimal
  import opened TokenerMachine
  import opened StringLiteral
  import opened TokenerCut
  import opened TokenerRun
  import opened JsonPrinter

  /** No doubles, keys that are distinct C strings, and at most `room` levels below this one. */
  ghost predicate Fits(v: Json, room: int) {
    match v
    case Double(_) => false
    case Arr(es) => es == [] || (room >= 1 && AllFit(es, room - 1))
    case Obj(fs) =>
      Distinct(fs) && (forall i :: 0 <= i < |fs| ==> NulFree(fs[i].key))
      && (fs == [] || (room >= 1 && AllFieldsFit(fs, room - 1)))
    case _ => true
  }

  ghost predicate AllFit(es: seq<Json>, room: int) {
    es == [] || (Fits(es[0], room) && AllFit(es[1..], room))
  }

  ghost predicate AllFieldsFit(fs: seq<Field>, room: int) {
    fs == [] ||
    var fd: Field := fs[0];
    assert fd decreases to fd.val;
    Fits(fd.val, room) && AllFieldsFit(fs[1..], room)
  }

  /** The tree that comes back. */
  function ReadBack(v: Json): Json {
    match v
    case UInt(u) => if u <= INT64_MAX then Int(u) else v
    case Arr(es) => Arr(ReadBackAll(es))
    case Obj(fs) => Obj(ReadBackFields(fs))
    case _ => v
  }

  function ReadBackAll(es: seq<Json>): seq<Json> {
    if es == [] then [] else [ReadBack(es[0])] + ReadBackAll(es[1..])
  }

  function ReadBackFields(fs: seq<Field>): seq<Field> {
    if fs == [] then []
    else
      var fd: Field := fs[0];
      assert fd decreases to fd.val;
      [Pair(fd.key, ReadBack(fd.val))] + ReadBackFields(fs[1..])
  }

  // ------------------------------------------------------------ where the machine stands

  predicate Clean(m: Mach) {
    m.high == 0 && m.num == NUMBER_START && m.obj == Null
  }

  /** A level about to read a value. */
  predicate AtValue(m: Mach) {
    m.top == LEVEL_RESET && Clean(m)
  }

  /** White space and then state `s`, with `current` under construction. */
  predicate Awaits(m: Mach, s: State, current: Json) {
    m.top == Srec(EatWs, s, current, None) && Clean(m)
  }

  predicate DoneWith(below: seq<Srec>, r: Mach, v: Json) {
    r.below == below && Awaits(r, Finish, v)
  }

  /** The text of `v` has been read; a literal or number still needs the next character to end. */
  predicate Pending(below: seq<Srec>, r: Mach, v: Json) {
    || DoneWith(below, r, ReadBack(v))
    || (r.below == below && r.high == 0 && r.obj == Null && r.top.field == None && HalfRead(r, v))
  }

  predicate HalfRead(r: Mach, v: Json) {
    match v
    case Null => r.top.state == NullLit && r.pb == "null" && r.stPos == 4 && r.num == NUMBER_START
    case Bool(true) => r.top.state == Boolean && r.pb == "true" && r.stPos == 4 && r.num == NUMBER_START
    case Bool(false) => r.top.state == Boolean && r.pb == "false" && r.stPos == 5 && r.num == NUMBER_START
    case Int(i) => r.top.state == NumberS && r.pb == SignedDigits(i) && !r.isDouble
    case UInt(u) => r.top.state == NumberS && r.pb == SignedDigits(u) && !r.isDouble
    case _ => false
  }

  /** What may stand behind a value. */
  predicate Delimiter(c: char, depth: nat) {
    c == ',' || c == ']' || c == '}' || IsWs(c) || (c == NUL && depth == 0)
  }

  // ------------------------------------------------------------ turns without reading

  lemma RedoEat(k: Config, m: Mach, s: string)
    requires s != "" && !CutShows(m, s[0]) && Step(k, m, s[0]).Redo?
    ensures Eat(k, m, s) == Eat(k, Step(k, m, s[0]).m, s)
    ensures Call(k, m, s) == Call(k, Step(k, m, s[0]).m, s)
  {
    hide Step;
  }

  lemma AdvanceEat(k: Config, m: Mach, s: string)
    requires s != "" && s[0] != NUL && !CutShows(m, s[0]) && Step(k, m, s[0]).Advance?
    ensures Eat(k, m, s) == Eat(k, Step(k, m, s[0]).m, s[1..])
    ensures Call(k, m, s) == Call(k, Step(k, m, s[0]).m, s[1..])
  {
    hide Step;
  }

  lemma {:induction false} WhiteSpaceEaten(k: Config, m: Mach, w: string)
    requires m.top.state == EatWs && forall i :: 0 <= i < |w| ==> IsWs(w[i])
    ensures Eat(k, m, w) == Some(m)
  {
    if w != "" {
      WsTurn(k, m, w[0]);
      AdvanceEat(k, m, w);
      WhiteSpaceEaten(k, m, w[1..]);
    }
  }

  lemma WsTurn(k: Config, m: Mach, c: char)
    requires m.top.state == EatWs && IsWs(c)
    ensures Step(k, m, c) == Advance(m)
  {
  }

  /** The first character of a token ends the white space. */
  lemma TokenTurn(k: Config, m: Mach, c: char)
    requires m.top.state == EatWs && !IsWs(c) && (c != '/' || k.strict) && m.top.saved != EatWs
    ensures Step(k, m, c) == Redo(Goto(m, m.top.saved))
  {
  }

  // ------------------------------------------------------------ scalars

  lemma NullTurn(k: Config, m: Mach, i: nat)
    requires m.top.state == NullLit && i < 4 && m.pb == "null"[..i] && m.stPos == i
    ensures Step(k, m, "null"[i]) == Advance(m.(pb := "null"[..i + 1], stPos := i + 1))
  {
    assert m.pb + ["null"[i]] == "null"[..i + 1];
  }

  lemma {:induction false} NullEaten(k: Config, m: Mach, i: nat)
    requires m.top.state == NullLit && i <= 4 && m.pb == "null"[..i] && m.stPos == i
    ensures Eat(k, m, "null"[i..]) == Some(m.(pb := "null", stPos := 4))
    decreases 4 - i
  {
    hide Step;
    if i < 4 {
      NullTurn(k, m, i);
      AdvanceEat(k, m, "null"[i..]);
      assert "null"[i..][1..] == "null"[i + 1..];
      NullEaten(k, Step(k, m, "null"[i]).m, i + 1);
    } else {
      assert "null"[i..] == "" && m.pb == "null";
    }
  }

  function BoolText(b: bool): string {
    if b then "true" else "false"
  }

  lemma BoolTurn(k: Config, m: Mach, b: bool, i: nat)
    requires m.top.state == Boolean && i < |BoolText(b)| && m.pb == BoolText(b)[..i] && m.stPos == i
    ensures Step(k, m, BoolText(b)[i]) == Advance(m.(pb := BoolText(b)[..i + 1], stPos := i + 1))
  {
    var pb := BoolText(b)[..i + 1];
    assert m.pb + [BoolText(b)[i]] == pb;
    if !b {
      NotTrue(k, pb, Min(i + 1, 4));
    }
  }

  lemma NotTrue(k: Config, pb: string, size: nat)
    requires pb != "" && pb[0] == 'f' && 0 < size <= 4
    ensures !LiteralMatches(k, "true", pb, size)
  {
    if size <= |pb| {
      assert "true"[..size][0] != pb[..size][0];
      assert ToLowerAll("true"[..size])[0] != ToLowerAll(pb[..size])[0];
    }
  }

  lemma {:induction false} BoolEaten(k: Config, m: Mach, b: bool, i: nat)
    requires m.top.state == Boolean && i <= |BoolText(b)| && m.pb == BoolText(b)[..i] && m.stPos == i
    ensures Eat(k, m, BoolText(b)[i..]) == Some(m.(pb := BoolText(b), stPos := |BoolText(b)|))
    decreases |BoolText(b)| - i
  {
    hide Step;
    if i < |BoolText(b)| {
      BoolTurn(k, m, b, i);
      AdvanceEat(k, m, BoolText(b)[i..]);
      assert BoolText(b)[i..][1..] == BoolText(b)[i + 1..];
      BoolEaten(k, Step(k, m, BoolText(b)[i]).m, b, i + 1);
    } else {
      assert BoolText(b)[i..] == "" && m.pb == BoolText(b);
    }
  }

  lemma DigitTurn(k: Config, m: Mach, c: char)
    requires m.top.state == NumberS && (IsDigit(c) || (c == '-' && m.num.negOk))
    ensures Step(k, m, c).Advance?
    ensures var r := Step(k, m, c).m;
            && r == m.(pb := m.pb + [c], num := r.num)
  {
  }

  lemma {:induction false} DigitsEaten(k: Config, m: Mach, s: string) returns (r: Mach)
    requires m.top.state == NumberS && AllDigits(s)
    ensures Eat(k, m, s) == Some(r)
    ensures r == m.(pb := m.pb + s, num := r.num)
    decreases |s|
  {
    hide Step;
    if s == "" {
      r := m;
      assert m.pb + s == m.pb;
    } else {
      DigitTurn(k, m, s[0]);
      AdvanceEat(k, m, s);
      r := DigitsEaten(k, Step(k, m, s[0]).m, s[1..]);
      assert m.pb + [s[0]] + s[1..] == m.pb + s;
    }
  }

  /** From the start of a value to the state its first character selects. */
  lemma Opened(k: Config, m: Mach, s: string)
    requires AtValue(m) && s != "" && !IsWs(s[0]) && s[0] != '/'
    ensures var t := StepStart(k, Goto(m, Start), s[0]);
            && (t.Redo? ==> Eat(k, m, s) == Eat(k, t.m, s))
            && (t.Advance? && s[0] != NUL ==> Eat(k, m, s) == Eat(k, t.m, s[1..]))
  {
    hide StepStart, Step;
    TokenTurn(k, m, s[0]);
    RedoEat(k, m, s);
    StartTurn(k, Goto(m, Start), s[0]);
    var t := StepStart(k, Goto(m, Start), s[0]);
    if t.Redo? {
      RedoEat(k, Goto(m, Start), s);
    } else if t.Advance? && s[0] != NUL {
      AdvanceEat(k, Goto(m, Start), s);
    }
  }

  lemma NumberEaten(k: Config, m: Mach, i: int) returns (r: Mach)
    requires AtValue(m)
    ensures Eat(k, m, SignedDigits(i)) == Some(r)
    ensures r.below == m.below && r.high == 0 && r.obj == Null && r.top.field == None
    ensures r.top.state == NumberS && r.pb == SignedDigits(i) && !r.isDouble
  {
    hide Step, Eat;
    var s := SignedDigits(i);
    DigitsShape(if i < 0 then -i else i);
    assert i >= 0 ==> IsDigit(s[0]);
    Opened(k, m, s);
    var n := Goto(m, NumberS).(pb := "", isDouble := false, num := NUMBER_START);
    if i < 0 {
      DigitTurn(k, n, '-');
      AdvanceEat(k, n, s);
      assert s[1..] == Digits(-i);
      r := DigitsEaten(k, Step(k, n, '-').m, s[1..]);
      assert "" + ['-'] + s[1..] == s;
    } else {
      r := DigitsEaten(k, n, s);
      assert "" + s == s;
    }
  }

  lemma StringEaten(k: Config, m: Mach, f: Flags, s: string) returns (r: Mach)
    requires AtValue(m)
    ensures Eat(k, m, Quoted(f, s)) == Some(r)
    ensures DoneWith(m.below, r, Str(s))
  {
    hide Step, Eat, Text, ItemsOf, Escape, Meaning;
    var text := Quoted(f, s);
    Opened(k, m, text);
    var n := Goto(m, StringS).(pb := "", quote := '"');
    EscapeMeans(f, s);
    assert text[1..] == Text(ItemsOf(f, s)) + ['"'];
    r := EatItems(k, n, StringS, '"', 0, "", ItemsOf(f, s));
    assert "" + s == s;
    ClosedIsClean(n, r, StringS, s);
  }

  lemma ClosedIsClean(m: Mach, r: Mach, body: State, text: string)
    requires Closed(m, r, body, text) && Clean(m)
    ensures r.high == 0 && r.below == m.below && Clean(r)
  {
  }

  /** Any value that is not a container. */
  lemma ScalarEaten(k: Config, m: Mach, f: Flags, v: Json, level: nat) returns (r: Mach)
    requires AtValue(m) && !v.Double? && !v.Arr? && !v.Obj?
    ensures Eat(k, m, Print(f, v, level)) == Some(r)
    ensures Pending(m.below, r, v)
  {
    hide Step, Eat;
    match v
    case Null =>
      Opened(k, m, "null");
      var n := Goto(m, NullLit).(pb := "", stPos := 0);
      NullEaten(k, n, 0);
      assert "null"[0..] == "null";
      r := n.(pb := "null", stPos := 4);
    case Bool(b) =>
      Opened(k, m, BoolText(b));
      var n := Goto(m, Boolean).(pb := "", stPos := 0);
      BoolEaten(k, n, b, 0);
      assert BoolText(b)[0..] == BoolText(b);
      r := n.(pb := BoolText(b), stPos := |BoolText(b)|);
    case Int(i) => r := NumberEaten(k, m, i);
    case UInt(u) => r := NumberEaten(k, m, u);
    case Str(s) => r := StringEaten(k, m, f, s);
  }

  // ------------------------------------------------------------ the end of a value

  lemma NullEnds(k: Config, r: Mach, c: char)
    requires r.top.state == NullLit && r.pb == "null" && r.stPos == 4
    ensures Step(k, r, c) == Redo(Finished(r.(pb := r.pb + [c]), Null))
  {
    assert (r.pb + [c])[..4] == "null"[..4];
  }

  lemma BoolEnds(k: Config, r: Mach, b: bool, c: char)
    requires r.top.state == Boolean && r.pb == BoolText(b) && r.stPos == |BoolText(b)|
    ensures Step(k, r, c) == Redo(Finished(r.(pb := r.pb + [c]), Bool(b)))
  {
    var pb := r.pb + [c];
    if b {
      assert pb[..4] == "true"[..4];
    } else {
      NotTrue(k, pb, 4);
      assert pb[..5] == "false"[..5];
    }
  }

  function IntValue(i: int): Json
    requires INT64_MIN <= i <= UINT64_MAX
  {
    if i <= INT64_MAX then Int(i) else UInt(i)
  }

  lemma PrintedNumberValue(k: Config, i: int)
    requires INT64_MIN <= i <= UINT64_MAX
    ensures NumberValue(k, SignedDigits(i), false) == Some(IntValue(i))
  {
    hide ParseInt64, ParseUInt64, Digits;
    PrintedIntegerReadsBack(i);
    DigitsShape(if i < 0 then -i else i);
    if i >= 0 {
      assert IsDigit(Digits(i)[0]);
      FirstDigit(i);
    }
  }

  lemma FirstDigit(i: nat)
    ensures Digits(i)[0] == '0' ==> i == 0
  {
    DigitsShape(i);
  }

  lemma NumberEnds(k: Config, r: Mach, i: int, c: char)
    requires r.top.state == NumberS && r.pb == SignedDigits(i) && !r.isDouble
    requires INT64_MIN <= i <= UINT64_MAX && Delimiter(c, |r.below|)
    ensures Step(k, r, c) == Redo(Finished(r.(num := NUMBER_START), IntValue(i)))
  {
    hide NumberValue, SignedDigits;
    PrintedNumberValue(k, i);
    assert !NumberChar(r, c);
  }

  /** A value that is complete once the next character is seen. */
  lemma Settled(k: Config, below: seq<Srec>, r: Mach, v: Json, s: string) returns (q: Mach)
    requires Pending(below, r, v) && s != "" && Delimiter(s[0], |below|)
    ensures DoneWith(below, q, ReadBack(v))
    ensures Eat(k, r, s) == Eat(k, q, s) && Call(k, r, s) == Call(k, q, s)
  {
    hide Step, Eat, Call;
    if DoneWith(below, r, ReadBack(v)) {
      q := r;
    } else {
      match v {
        case Null => NullEnds(k, r, s[0]);
        case Bool(b) => BoolEnds(k, r, b, s[0]);
        case Int(i) => NumberEnds(k, r, i, s[0]);
        case UInt(u) => NumberEnds(k, r, u, s[0]);
      }
      RedoEat(k, r, s);
      q := Step(k, r, s[0]).m;
    }
  }
}
