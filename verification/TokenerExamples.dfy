/**
 Texts that show that the failing sides of the general results are reached: a comment that never
 ends can hide an open array, a cut inside a malformed number can make it acceptable, and a surrogate
 pair can be misread.
 */
module TokenerExamples {
  import opened Basics
  import opened OrderedMap
  import opened JsonValue
  import opened Decimal
  import opened TokenerMachine
  import opened TokenerCut
  import opened StringLiteral
  import opened TokenerRun
  import opened TokenerAlike
  import opened TokenerReset
  import opened RoundTripScalars

  lemma OpenArray(k: Config, s: string) returns (r: Mach)
    requires s != "" && s[0] == '['
    ensures r == FRESH.(top := Srec(EatWs, Array, Arr([]), None))
    ensures Call(k, FRESH, s) == Call(k, r, s[1..])
  {
    hide Call, Step;
    EatWsTurn(k, FRESH, '[');
    Redone(k, FRESH, s, Goto(FRESH, Start));
    StartTurn(k, Goto(FRESH, Start), '[');
    r := FRESH.(top := Srec(EatWs, Array, Arr([]), None));
    ReadOn(k, Goto(FRESH, Start), s, r);
  }

  lemma FirstOne(k: Config, a: Mach, s: string) returns (r: Mach)
    requires a == FRESH.(top := Srec(EatWs, Array, Arr([]), None)) && k.maxDepth >= 2
    requires s != "" && s[0] == '1'
    ensures r == Push(Goto(a, Array), ArrayAdd).(top := LEVEL_RESET.(state := NumberS), pb := "1", num := r.num)
    ensures !r.num.negOk
    ensures Call(k, a, s) == Call(k, r, s[1..])
  {
    hide Call, Step;
    EatWsTurn(k, a, '1');
    Redone(k, a, s, Goto(a, Array));
    StackTurn(k, Goto(a, Array), '1');
    var p := Push(Goto(a, Array), ArrayAdd);
    Redone(k, Goto(a, Array), s, p);
    EatWsTurn(k, p, '1');
    Redone(k, p, s, Goto(p, Start));
    StartTurn(k, Goto(p, Start), '1');
    var n := Goto(p, NumberS).(pb := "", isDouble := false, num := NUMBER_START);
    Redone(k, Goto(p, Start), s, n);
    LiteralTurn(k, n, '1');
    assert "" + ['1'] == "1";
    r := NumberNext(n, '1');
    ReadOn(k, n, s, r);
  }

  /** The slash ends the number. */
  lemma OneEnds(k: Config, n: Mach, s: string) returns (v: Mach)
    requires n.top == LEVEL_RESET.(state := NumberS) && n.pb == "1" && !n.isDouble
    requires s != "" && s[0] == '/'
    ensures v == Finished(n.(num := NUMBER_START), Int(1))
    ensures Call(k, n, s) == Call(k, v, s)
  {
    hide Call, Step, NumberValue, Finished;
    LiteralTurn(k, n, '/');
    assert Decimal.SignedDigits(1) == "1";
    PrintedNumberValue(k, 1);
    v := Finished(n.(num := NUMBER_START), Int(1));
    Redone(k, n, s, v);
  }

  /** It also begins a comment, and the NUL ends the text there. */
  lemma CommentEndsIt(k: Config, v: Mach, s: string)
    requires v.top == Srec(EatWs, Finish, Int(1), None) && !k.strict && s == ['/', '*', NUL]
    ensures Call(k, v, s).Ok? && Call(k, v, s).value == Int(1)
    ensures Call(k, v, s).after.below == seq(|v.below|, _ => LEVEL_RESET)
  {
    hide Call, Step;
    EatWsTurn(k, v, '/');
    var c := Goto(v, CommentStart).(pb := "/");
    ReadOn(k, v, s, c);
    LiteralTurn(k, c, '*');
    var d := Goto(c, Comment).(pb := c.pb + ['*']);
    ReadOn(k, c, s[1..], d);
    assert s[1..][1..] == [NUL];
    LiteralTurn(k, d, NUL);
    NulEnds(k, d, d.(pb := d.pb + [NUL]));
  }

  lemma NulEnds(k: Config, d: Mach, e: Mach)
    requires Step(k, d, NUL) == Advance(e) && e.top.saved == Finish && e.top.state == Comment
    ensures Call(k, d, [NUL]) == Ok(e.top.current, ResetLevels(e), "")
  {
    hide Step;
  }

  /** An array whose first element is followed by a comment that never ends is taken for that element. */
  lemma OpenCommentAccepted(k: Config)
    requires !k.strict && k.maxDepth >= 2
    ensures var o := ParseText(k, ['[', '1', '/', '*']);
            o.Ok? && o.value == Int(1) && o.after.below == [LEVEL_RESET]
    ensures OpenComment(k, FRESH, ['[', '1', '/', '*', NUL])
  {
    hide Call, Step, OpenComment, AlikeOutcomes, Ready;
    var t := ['[', '1', '/', '*'] + [NUL];
    assert t == ['[', '1', '/', '*', NUL];
    var a := OpenArray(k, t);
    var n := FirstOne(k, a, t[1..]);
    assert t[1..][1..] == ['/', '*', NUL];
    var v := OneEnds(k, n, t[1..][1..]);
    CommentEndsIt(k, v, t[1..][1..]);
    FreshIsReady(k);
    SuccessIsNewExactly(k, FRESH, t);
  }

  // ------------------------------------------------------------ a sign behind a digit

  /** In one go the sign does not belong to the number, and ends nothing either. */
  lemma SignRefused(k: Config, n: Mach, s: string)
    requires n.top == LEVEL_RESET.(state := NumberS) && n.below != [] && !n.num.negOk && s != "" && s[0] == '-'
    ensures Call(k, n, s) == Fail(ParseNumber, s)
  {
    hide Step;
    LiteralTurn(k, n, '-');
  }

  /** After a cut it is taken for the sign of a number that has just begun. */
  lemma SignTaken(k: Config, n: Mach, s: string) returns (r: Mach)
    requires n.top == LEVEL_RESET.(state := NumberS) && n.pb == "1" && s != "" && s[0] == '-'
    ensures r == NumberNext(Resume(n), '-') && r.pb == "1-"
    ensures Call(k, Resume(n), s) == Call(k, r, s[1..])
  {
    hide Call, Step;
    LiteralTurn(k, Resume(n), '-');
    assert Regenerate("1") == NUMBER_START;
    assert "1" + ['-'] == "1-";
    r := NumberNext(Resume(n), '-');
    ReadOn(k, Resume(n), s, r);
  }

  lemma SignedOne(k: Config)
    ensures NumberValue(k, "1-", false) == Some(Int(1))
  {
    assert DigitPrefix("1-"[1..]) == "";
    assert DigitPrefix("1-") == ['1'] + "" == "1";
    assert Value("1") == 1;
  }

  /** The bracket ends the number and goes on to close the array around it. */
  lemma BracketCloses(k: Config, r: Mach, s: string)
    requires r.below == [Srec(ArrayAdd, Array, Arr([]), None)] && r.top == LEVEL_RESET.(state := NumberS)
    requires r.pb == "1-" && !r.isDouble && s == [']']
    ensures Call(k, r, s).Ok? && Call(k, r, s).value == Arr([Int(1)])
  {
    hide Call, Step, NumberValue;
    LiteralTurn(k, r, ']');
    SignedOne(k);
    var v := Finished(r.(num := NUMBER_START), Int(1));
    Redone(k, r, s, v);
    EatWsTurn(k, v, ']');
    var f := Goto(v, Finish);
    Redone(k, v, s, f);
    StackTurn(k, f, ']');
    var a := f.(below := [], top := r.below[0], obj := Int(1));
    assert r.below[..0] == [];
    Redone(k, f, s, a);
    ArrayEnds(k, a, s);
  }

  lemma ArrayEnds(k: Config, a: Mach, s: string)
    requires a.top == Srec(ArrayAdd, Array, Arr([]), None) && a.obj == Int(1) && a.below == [] && s == [']']
    ensures Call(k, a, s).Ok? && Call(k, a, s).value == Arr([Int(1)])
  {
    hide Call, Step;
    StackTurn(k, a, ']');
    assert [] + [Int(1)] == [Int(1)];
    var e := a.(top := Srec(EatWs, ArraySep, Arr([Int(1)]), None), obj := Null);
    Redone(k, a, s, e);
    EatWsTurn(k, e, ']');
    Redone(k, e, s, Goto(e, ArraySep));
    StackTurn(k, Goto(e, ArraySep), ']');
    var d := EatThen(e, Finish);
    ReadOn(k, Goto(e, ArraySep), s, d);
    assert s[1..] == "";
    EndsWhole(k, d);
  }

  lemma EndsWhole(k: Config, d: Mach)
    requires Complete(d)
    ensures Call(k, d, "") == Ok(d.top.current, ResetLevels(d), "")
  {
  }

  lemma PausesAfterOne(k: Config, n: Mach)
    requires n.top.state == NumberS
    ensures Call(k, n, "") == Continue(n)
  {
  }

  /** "[1-]" is an error in one piece, and an array of one number in the pieces "[1" and "-]". */
  lemma SignCutShows(k: Config)
    requires k.maxDepth >= 2
    ensures Parse(k, FRESH, "[1-]") == Fail(ParseNumber, "-]")
    ensures var o := Parse(k, FRESH, "[1");
            o.Continue? && Parse(k, o.at, "-]").Ok? && Parse(k, o.at, "-]").value == Arr([Int(1)])
  {
    hide Call, Step;
    var a := OpenArray(k, "[1-]");
    var n := FirstOne(k, a, "[1-]"[1..]);
    assert "[1-]"[1..][1..] == "-]";
    SignRefused(k, n, "-]");
    var b := OpenArray(k, "[1");
    var p := FirstOne(k, b, "[1"[1..]);
    assert "[1"[1..][1..] == "";
    PausesAfterOne(k, p);
    var r := SignTaken(k, p, "-]");
    assert "-]"[1..] == "]";
    BracketCloses(k, r, "-]"[1..]);
  }

  // ------------------------------------------------------------ a misread pair

  const PAIR: seq<Item> := [Unit('d', '8', '3', '6'), Unit('d', 'c', '0', '0')]

  const PAIR_TEXT: string := ['"', '\\', 'u', 'd', '8', '3', '6', '\\', 'u', 'd', 'c', '0', '0', '"']

  lemma PairUnits()
    ensures ItemsOk('"', PAIR) && UnitValue(PAIR[0]) == 0xD836 && UnitValue(PAIR[1]) == 0xDC00
    ensures Text(PAIR) + ['"'] == PAIR_TEXT[1..]
  {
    hide Utf8Bytes;
    assert ItemOk('"', PAIR[0]) && ItemOk('"', PAIR[1]);
    assert Text(PAIR[1..]) == ItemText(PAIR[1]) + Text(PAIR[1..][1..]) == ItemText(PAIR[1]) + "";
  }

  lemma PairMeans()
    ensures ItemsOk('"', PAIR) && Text(PAIR) + ['"'] == PAIR_TEXT[1..]
    ensures Meaning('"', 0, PAIR) == REPLACEMENT && Intended('"', PAIR) == Utf8Bytes(0x1D800)
  {
    hide Utf8Bytes, UnitValue, Text, Misread, PairsSound, Intended, Meaning;
    PairUnits();
    assert PAIR[2..] == [];
    assert StartsPair('"', PAIR) && FirstPair('"', PAIR) == 0x1D800;
    PairItem('"', PAIR);
    assert PointEffect("", 0x1D800) == Effect("", 0x1D800);
    EmptyMeans();
  }

  lemma EmptyMeans()
    ensures Meaning('"', 0x1D800, []) == REPLACEMENT && Intended('"', []) == ""
  {
  }

  /** The pair of U+1D800 is read as one replacement character. */
  lemma PairMisread(k: Config)
    ensures Parse(k, FRESH, PAIR_TEXT).Ok? && Parse(k, FRESH, PAIR_TEXT).value == Str(REPLACEMENT)
    ensures REPLACEMENT != Utf8Bytes(0x1D800) == Intended('"', PAIR)
  {
    hide Call, Eat, Step, Meaning, Intended, Text;
    PairMeans();
    assert PAIR_TEXT == ['"'] + PAIR_TEXT[1..];
    var q := QuoteOpens(k, FRESH, PAIR_TEXT[1..]);
    var r := EatItems(k, q, StringS, '"', 0, "", PAIR);
    EatThenCall(k, q, PAIR_TEXT[1..], []);
    assert PAIR_TEXT[1..] + [] == PAIR_TEXT[1..];
    assert "" + REPLACEMENT == REPLACEMENT;
    EndsWhole(k, r);
  }
}
