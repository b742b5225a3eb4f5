/**
 Parsing numbers against the grammar. The code takes characters as long as its flags allow it and leaves
 the rest to `strtod` and `strtoll`; together they take the numbers of the grammar.
 */
module GrammarNumbers {
  import opened Basics
  import opened JsonValue
  import opened Decimal
  import opened TokenerMachine
  import opened TokenerCut
  import opened TokenerRun
  import opened RoundTripScalars
  import opened RfcNumbers
  import opened JsonGrammar
  import opened GrammarScalars

  // ------------------------------------------------------------ what strtod takes

  function Walk(p: Position, s: string): Position
    decreases s
  {
    if s == "" then p else Walk(WideNext(p, s[0]), s[1..])
  }

  lemma {:induction false} WalkReach(a: string, b: string)
    ensures WideReach(a + b) == Walk(WideReach(a), b)
    decreases |b|
  {
    hide WideNext;
    if b == "" {
      assert a + b == a;
    } else {
      var c := a + [b[0]];
      assert c[..|c| - 1] == a && c + b[1..] == a + b;
      WalkReach(c, b[1..]);
    }
  }

  lemma {:induction false} BadStays(s: string)
    ensures Walk(Bad, s) == Bad
  {
    if s != "" {
      BadStays(s[1..]);
    }
  }

  /** The exponent, and nothing behind it. */
  predicate Tail(s: string) {
    s == "" || ((s[0] == 'e' || s[0] == 'E') && AllExponent(s[1..]))
  }

  lemma {:induction false} ExponentDigits(p: Position, s: string)
    requires p == ExpDigits || p == ExpSign
    ensures Final(Walk(p, s)) <==> AllDigits(s) && (p == ExpDigits || s != "")
    decreases s
  {
    if s != "" {
      if IsDigit(s[0]) {
        ExponentDigits(ExpDigits, s[1..]);
        assert s == [s[0]] + s[1..];
      } else {
        BadStays(s[1..]);
      }
    }
  }

  lemma TailWalk(p: Position, s: string)
    requires (p == Whole || p == Frac) && (s == "" || !(IsDigit(s[0]) || (p == Whole && s[0] == '.')))
    ensures Final(Walk(p, s)) <==> Tail(s)
  {
    if s != "" {
      if s[0] == 'e' || s[0] == 'E' {
        ExponentWalk(s[1..]);
      } else {
        BadStays(s[1..]);
      }
    }
  }

  lemma ExponentWalk(s: string)
    ensures Final(Walk(Exp, s)) <==> AllExponent(s)
  {
    if s != "" {
      if s[0] == '-' || s[0] == '+' {
        ExponentDigits(ExpSign, s[1..]);
      } else if IsDigit(s[0]) {
        ExponentDigits(ExpDigits, s[1..]);
        assert s == [s[0]] + s[1..];
      } else {
        BadStays(s[1..]);
      }
    }
  }

  /** Behind the point. */
  lemma {:induction false} FractionWalk(p: Position, s: string)
    requires p == Frac || p == Point
    ensures var f := DigitPrefix(s); Final(Walk(p, s)) <==> (p == Frac || f != "") && Tail(s[|f|..])
    decreases s
  {
    hide Tail;
    if s != "" && IsDigit(s[0]) {
      FractionWalk(Frac, s[1..]);
    } else if p == Frac {
      TailWalk(p, s);
    } else if s != "" {
      BadStays(s[1..]);
    }
  }

  /** The body of `strtod`'s number, with some digits before it or none. */
  predicate Body(some: bool, s: string) {
    var whole := DigitPrefix(s);
    var t := s[|whole|..];
    if t != "" && t[0] == '.' then
      var f := DigitPrefix(t[1..]);
      (some || |whole| + |f| > 0) && Tail(t[1 + |f|..])
    else (some || whole != "") && Tail(t)
  }

  lemma {:induction false} BodyWalk(p: Position, s: string)
    requires p == Whole || p == Minus
    ensures Final(Walk(p, s)) <==> Body(p == Whole, s)
    decreases s
  {
    hide Tail;
    if s != "" && IsDigit(s[0]) {
      BodyWalk(Whole, s[1..]);
      BodyDigit(p == Whole, s);
    } else if s != "" && s[0] == '.' {
      FractionWalk(if p == Whole then Frac else Point, s[1..]);
      var f := DigitPrefix(s[1..]);
      assert s[1..][|f|..] == s[1 + |f|..];
    } else if p == Whole {
      TailWalk(p, s);
    } else if s != "" {
      BadStays(s[1..]);
    }
  }

  lemma BodyDigit(some: bool, s: string)
    requires s != "" && IsDigit(s[0])
    ensures Body(some, s) <==> Body(true, s[1..])
  {
    hide Tail;
    var whole := DigitPrefix(s);
    assert s[|whole|..] == s[1..][|DigitPrefix(s[1..])|..];
  }

  /** `strtod` consumes the texts of the wider grammar. */
  lemma StrtodIsWide(w: string)
    requires w != "" && (IsDigit(w[0]) || w[0] == '-')
    ensures StrtodConsumesAll(w) <==> Final(WideReach(w))
  {
    WalkReach([w[0]], w[1..]);
    assert w == [w[0]] + w[1..] && [w[0]][..0] == "";
    if w[0] == '-' {
      BodyWalk(Minus, w[1..]);
      StrtodBody(w, w[1..]);
    } else {
      BodyWalk(Whole, w[1..]);
      BodyDigit(false, w);
      StrtodBody(w, w);
    }
  }

  lemma StrtodBody(w: string, body: string)
    requires w != "" && body == if w[0] == '-' || w[0] == '+' then w[1..] else w
    ensures StrtodConsumesAll(w) <==> Body(false, body)
  {
    hide AllExponent;
    var whole := DigitPrefix(body);
    var t := body[|whole|..];
    if t != "" && t[0] == '.' {
      var f := DigitPrefix(t[1..]);
      assert |f| <= |t[1..]|;
    }
  }

  // ------------------------------------------------------------ a number read in one go

  /** The locals of the number case, in terms of the text read so far. */
  predicate Counted(m: Mach) {
    && m.top.state == NumberS && m.num == Uncut(m.pb) && m.isDouble == Marked(m.pb)
    && (!m.isDouble ==> AllDigits(Magnitude(m.pb)))
  }

  lemma MarkedOn(pb: string, c: char)
    ensures Marked(pb + [c]) <==> Marked(pb) || c == '.' || c == 'e' || c == 'E'
    ensures HasExponent(pb) <==> 'e' in pb || 'E' in pb
    ensures HasExponent(pb + [c]) <==> HasExponent(pb) || c == 'e' || c == 'E'
    ensures SignAfter(pb) <==> EndsInMark(pb)
  {
    assert HasExponent(pb) ==> exists i :: 0 <= i < |pb| && IsExponentMark(pb[i]);
    assert forall i :: 0 <= i < |pb| ==> (pb + [c])[i] == pb[i];
    assert (pb + [c])[|pb|] == c;
  }

  /** The flags allow what the grammar's token takes. */
  lemma CharIsTaken(m: Mach, c: char)
    requires Counted(m)
    ensures NumberChar(m, c) <==> Takes(m.pb, c) && c != NUL
  {
    hide Marked, HasExponent, SignAfter, EndsInMark;
    MarkedOn(m.pb, c);
    NothingIn();
  }

  lemma NothingIn()
    ensures !HasExponent("") && !Marked("") && !SignAfter("")
  {
  }

  lemma TakenCounted(m: Mach, c: char)
    requires Counted(m) && NumberChar(m, c)
    ensures Counted(NumberNext(m, c))
  {
    hide Marked, HasExponent, SignAfter, EndsInMark;
    MarkedOn(m.pb, c);
    NothingIn();
    SignAtEnd(m.pb, c);
    if !NumberNext(m, c).isDouble {
      UnmarkedNext(m.pb, c);
    }
  }

  lemma SignAtEnd(pb: string, c: char)
    ensures SignAfter(pb + [c]) <==> c == '.' || c == 'e' || c == 'E'
    ensures !Marked(pb) ==> !EndsInMark(pb)
  {
    assert EndsInMark(pb) ==> pb[|pb| - 1] in pb;
  }

  lemma UnmarkedNext(pb: string, c: char)
    requires AllDigits(Magnitude(pb)) && (IsDigit(c) || (c == '-' && pb == ""))
    ensures AllDigits(Magnitude(pb + [c]))
  {
    var m := Magnitude(pb + [c]);
    if pb == "" {
      assert pb + [c] == [c];
      assert c == '-' ==> m == "";
    } else {
      assert m == Magnitude(pb) + [c];
    }
  }

  // ------------------------------------------------------------ the value of a number

  lemma {:induction false} TrimIsTrim(w: string)
    ensures TrimExponent(w) == Trim(w)
    ensures w != "" ==> Trim(w) != "" && Trim(w)[0] == w[0]
  {
    if |w| > 1 {
      TrimIsTrim(w[..|w| - 1]);
    }
  }

  lemma IntegerValue(k: Config, w: string)
    requires AllDigits(Magnitude(w)) && Magnitude(w) != ""
    ensures NumberValue(k, w, false) == IntegerOf(ModeOf(k), w)
  {
    hide Value, AllDigits;
    var d := Magnitude(w);
    DigitPrefixOfDigits(d);
    assert IsDigit(d[0]) by { DigitAt(d); }
  }

  lemma DigitAt(d: string)
    requires AllDigits(d) && d != ""
    ensures IsDigit(d[0])
  {
  }

  /** A minus and digits: the grammar has got to its whole part, or to the minus. */
  lemma {:induction false} DigitsReach(w: string)
    requires w != "" && AllDigits(Magnitude(w))
    ensures WideReach(w) == if Magnitude(w) == "" then Minus else Whole
  {
    var v, c := w[..|w| - 1], w[|w| - 1];
    assert w == v + [c];
    if v != "" {
      assert Magnitude(w) == Magnitude(v) + [c];
      DigitsReach(v);
    }
  }

  /** The value of a finished number is the one the grammar gives it. */
  lemma CountedValue(k: Config, m: Mach)
    requires Counted(m) && StartsNumber(m.pb)
    ensures var pb := if m.isDouble && !k.strict then TrimExponent(m.pb) else m.pb;
            NumberValue(k, pb, m.isDouble) == NumberOf(ModeOf(k), m.pb)
  {
    hide StrtodConsumesAll, IntegerOf, WideReach, TrimExponent, Trim, Marked;
    TrimIsTrim(m.pb);
    WideShape(m.pb);
    if m.isDouble {
      StrtodIsWide(m.pb);
      StrtodIsWide(Trim(m.pb));
      if WideReach(m.pb) == Whole {
        UnmarkedDigits(m.pb);
      }
    } else {
      DigitsReach(m.pb);
      if Magnitude(m.pb) == "" {
        MinusHasNoValue(k);
      } else {
        IntegerValue(k, m.pb);
      }
    }
  }

  lemma MinusHasNoValue(k: Config)
    ensures NumberValue(k, "-", false) == None && NumberOf(ModeOf(k), "-") == None
  {
    assert DigitPrefix("-"[1..]) == "" && "-"[..0] == "" && WideReach("-") == Minus;
    assert !Marked("-");
  }

  // ------------------------------------------------------------ running over a number

  predicate AtNumber(m: Mach, below: seq<Srec>) {
    Counted(m) && m.below == below && m.top.field == None && m.high == 0 && m.obj == Null
  }

  /** The turn behind the last character that is taken. */
  lemma EndTurn(k: Config, m: Mach, below: seq<Srec>, c: char)
    requires AtNumber(m, below) && StartsNumber(m.pb) && !NumberChar(m, c)
    ensures var t := Step(k, m, c);
            if below != [] && !EndsNumber(c) then t.Halt? && t.err.Some?
            else if m.pb == "-" && (c == 'i' || c == 'I') then
              t == Redo(Goto(m, Inf).(num := NUMBER_START, stPos := 0))
            else if NumberOf(ModeOf(k), m.pb).Some? then
              t.Redo? && DoneWith(below, t.m, NumberOf(ModeOf(k), m.pb).value)
            else t.Halt? && t.err.Some?
  {
    hide Step, NumberOf, NumberValue, NumberChar, EndsNumber, TrimExponent, Marked, HasExponent, AllDigits;
    LiteralTurn(k, m, c);
    CountedValue(k, m);
  }

  /** What follows a number of text `w`, when `t` is left. */
  predicate NumberLeft(k: Config, below: seq<Srec>, x: Option<Success>, w: string, t: string, r: Mach) {
    var v := NumberOf(ModeOf(k), w);
    if v.Some? then
      || (DoneWith(below, r, v.value) && x == Result(k, r, t))
      || (below != [] && !EndsNumber(Peek(t)) && x == None)
    else if w == "-" && Named(ModeOf(k), "Infinity", t) then
      DoneWith(below, r, Double("-Infinity")) && x == Result(k, r, t[8..])
    else x == None
  }

  /** A character that is not taken ends the number, or opens an infinity. */
  lemma TokenEnds(k: Config, m: Mach, below: seq<Srec>, s: string) returns (r: Mach)
    requires AtNumber(m, below) && StartsNumber(m.pb) && NulFree(s) && !NumberChar(m, Peek(s))
    ensures NumberLeft(k, below, Result(k, m, s), m.pb, s, r)
  {
    hide Step, Call, Result, Counted, NumberOf, DoneWith, NumberChar, Named;
    var c := Peek(s);
    InfinityStarts(ModeOf(k), s);
    MinusHasNoValue(k);
    EndTurn(k, m, below, c);
    var t := Step(k, m, c);
    if t.Halt? {
      RunHalt(k, m, s, t.m, t.err.value);
      r := m;
    } else {
      RunRedo(k, m, s, t.m);
      r := t.m;
      if m.pb == "-" && (c == 'i' || c == 'I') {
        assert "Infinity"[0..] == "Infinity";
        r := InfinityRun(k, t.m, below, "Infinity", s);
      }
    }
  }

  lemma InfinityStarts(mode: Mode, s: string)
    ensures Named(mode, "Infinity", s) ==> Peek(s) == 'I' || Peek(s) == 'i'
  {
    if Named(mode, "Infinity", s) {
      LetterOf(mode, "Infinity", s, 0);
    }
  }

  lemma {:induction false} NumberRun(k: Config, m: Mach, below: seq<Srec>, s: string) returns (r: Mach)
    requires AtNumber(m, below) && NulFree(s) && StartsNumber(m.pb + s)
    ensures var w := Token(m.pb, s); NumberLeft(k, below, Result(k, m, s), w, s[|w| - |m.pb|..], r)
    decreases |s|
  {
    hide Step, Call, Result, NumberOf, Counted, NumberNext, NumberChar, DoneWith, Takes, NumberLeft;
    var c := Peek(s);
    CharIsTaken(m, c);
    if NumberChar(m, c) {
      var n := NumberNext(m, c);
      CharTurn(k, m, below, c);
      RunAdvance(k, m, s, n);
      assert n.pb + s[1..] == m.pb + s;
      r := NumberRun(k, n, below, s[1..]);
      var w := Token(m.pb, s);
      assert s[1..][|w| - |n.pb|..] == s[|w| - |m.pb|..];
    } else {
      FirstTaken(m, below, s);
      r := TokenEnds(k, m, below, s);
      assert s[0..] == s;
    }
  }

  lemma CharTurn(k: Config, m: Mach, below: seq<Srec>, c: char)
    requires AtNumber(m, below) && NumberChar(m, c)
    ensures Step(k, m, c) == Advance(NumberNext(m, c))
    ensures AtNumber(NumberNext(m, c), below) && NumberNext(m, c).pb == m.pb + [c]
  {
    hide Step;
    LiteralTurn(k, m, c);
    TakenCounted(m, c);
  }

  lemma FirstTaken(m: Mach, below: seq<Srec>, s: string)
    requires AtNumber(m, below) && StartsNumber(m.pb + s) && NulFree(s) && !NumberChar(m, Peek(s))
    ensures StartsNumber(m.pb)
  {
    assert m.pb == "" ==> m.pb + s == s;
  }
}
