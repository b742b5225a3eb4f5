/**
 Parsing a whole text, against the grammar: in every configuration it succeeds exactly on the texts of
 the grammar of its mode, and the value it gives is the one the grammar reads.
 */
module GrammarTexts {
  import opened Basics
  import opened OrderedMap
  import opened JsonValue
  import opened Decimal
  import opened TokenerMachine
  import opened StringLiteral
  import opened TokenerRun
  import opened RoundTripScalars
  import opened RoundTrip
  import opened JsonGrammar
  import opened GrammarScalars
  import opened GrammarNumbers
  import Tokener

  // ------------------------------------------------------------ values that are no containers

  /**
   From machine `m` the text `s` comes to `x`, as the grammar has read it. Only a number may fail earlier
   than the grammar: inside a container the character behind it is looked at first.
   */
  predicate Left(k: Config, below: seq<Srec>, x: Option<Success>, g: Got<Json>, r: Mach) {
    match g
    case Got(v, t) =>
      || (DoneWith(below, r, v) && x == Result(k, r, t))
      || (below != [] && !EndsNumber(Peek(t)) && x == None)
    case Cut(v) => x == Some(Success(v, ""))
    case Nope => x == None
  }

  /** From the start of a value to the state its first character selects. */
  lemma RunOpened(k: Config, m: Mach, s: string)
    requires AtValue(m) && Bare(k, Peek(s))
    ensures var t := StepStart(k, Goto(m, Start), Peek(s));
            && (t.Redo? ==> Result(k, m, s) == Result(k, t.m, s))
            && (t.Advance? && Peek(s) != NUL ==> Result(k, m, s) == Result(k, t.m, s[1..]))
            && (t.Halt? && t.err.Some? ==> Result(k, m, s) == None)
  {
    hide Step, StepStart, Call, Result;
    var a := Goto(m, Start);
    TokenTurn(k, m, Peek(s));
    RunRedo(k, m, s, a);
    StartTurn(k, a, Peek(s));
    var t := StepStart(k, a, Peek(s));
    if t.Redo? {
      RunRedo(k, a, s, t.m);
    } else if t.Advance? && Peek(s) != NUL {
      RunAdvance(k, a, s, t.m);
    } else if t.Halt? && t.err.Some? {
      RunHalt(k, a, s, t.m, t.err.value);
    }
  }

  lemma StringRun(k: Config, m: Mach, s: string) returns (r: Mach)
    requires AtValue(m) && NulFree(s) && s != "" && StringQuote(ModeOf(k), s[0])
    ensures Left(k, m.below, Result(k, m, s), ReadQuoted(ModeOf(k), s), r)
  {
    hide Step, Call, Result, ReadString, ItemsOk, Meaning, Closed;
    RunOpened(k, m, s);
    var q := s[0];
    var n := Goto(m, StringS).(pb := "", quote := q);
    var t := ReadString(ModeOf(k), q, s[1..]);
    if t.Got? {
      r := StringReads(k, n, StringS, q, s[1..]);
      var text := Meaning(q, 0, t.val);
      ClosedIsClean(n, r, StringS, text);
      ClosedIsDone(n, r, text);
    } else {
      StringFails(k, n, StringS, q, 0, "", s[1..]);
      r := m;
    }
  }

  lemma ClosedIsDone(m: Mach, r: Mach, text: string)
    requires Closed(m, r, StringS, text) && Clean(r) && r.below == m.below && m.top.field == None
    ensures DoneWith(m.below, r, Str(text))
  {
  }

  lemma NumberRead(k: Config, m: Mach, s: string) returns (r: Mach)
    requires AtValue(m) && NulFree(s) && StartsNumber(s)
    ensures Left(k, m.below, Result(k, m, s), ReadNumber(ModeOf(k), s), r)
  {
    hide Step, Call, Result, NumberLeft, Left, ReadNumber, Counted, Token;
    RunOpened(k, m, s);
    var n := Goto(m, NumberS).(pb := "", isDouble := false, num := NUMBER_START);
    var w := Token("", s);
    assert n.pb + s == s && |w| - |n.pb| == |w|;
    NothingCounted(n);
    r := NumberRun(k, n, m.below, s);
    SameLeft(k, m.below, s, Result(k, m, s), r);
  }

  lemma NothingCounted(n: Mach)
    requires n.top.state == NumberS && n.pb == "" && !n.isDouble && n.num == NUMBER_START
    ensures Counted(n)
  {
  }

  /** The grammar's number and the machine's agree on what is left. */
  lemma SameLeft(k: Config, below: seq<Srec>, s: string, x: Option<Success>, r: Mach)
    requires NulFree(s) && StartsNumber(s) && |Token("", s)| <= |s|
    requires var w := Token("", s); NumberLeft(k, below, x, w, s[|w|..], r)
    ensures Left(k, below, x, ReadNumber(ModeOf(k), s), r)
  {
    hide Result, NumberOf, Token, DoneWith, EndsNumber, Named;
    MinusHasNoValue(k);
    InfinityBehind(ModeOf(k), s);
  }

  lemma InfinityBehind(mode: Mode, s: string)
    requires |Token("", s)| <= |s|
    ensures var w := Token("", s); Named(mode, "-Infinity", s) <==> w == "-" && Named(mode, "Infinity", s[|w|..])
    ensures Named(mode, "-Infinity", s) ==> |s| >= 9 && s[|Token("", s)|..][8..] == s[9..]
  {
    hide Token, Named;
    var word := "-Infinity";
    NamedOn(mode, word, s);
    assert word[1..] == "Infinity";
    if Named(mode, word, s) {
      LoneMinus(mode, s);
      NamedLong(mode, word, s);
    }
    assert "" + s == s;
  }

  /** Which of two words it is. */
  function ReadEither(mode: Mode, a: string, b: string, s: string): Got<Json> {
    if Named(mode, a, s) then ReadWord(mode, a, s) else ReadWord(mode, b, s)
  }

  lemma EitherRun(k: Config, n: Mach, a: string, b: string, s: string) returns (r: Mach)
    requires Choice(n.top.state, a, b) && Reading(n, n.below) && n.pb == "" && n.stPos == 0 && NulFree(s)
    ensures Left(k, n.below, Result(k, n, s), ReadEither(ModeOf(k), a, b, s), r)
  {
    hide Step, Call, Result, WordValue, SameLetter;
    assert "" + s == s;
    r := WordRun(k, n, n.below, a, b, s);
  }

  lemma LiteralRun(k: Config, m: Mach, s: string) returns (r: Mach)
    requires AtValue(m) && NulFree(s) && Bare(k, Peek(s)) && !StartsNumber(s)
    requires !StringQuote(ModeOf(k), Peek(s)) && Peek(s) != '[' && Peek(s) != '{'
    ensures Left(k, m.below, Result(k, m, s), ReadLiteral(ModeOf(k), s), r)
  {
    hide Step, Call, Result, ReadLiteral, WordValue, Named, ReadEither;
    RunOpened(k, m, s);
    LiteralIs(ModeOf(k), s);
    var c := Peek(s);
    r := m;
    if c == 'I' || c == 'i' {
      InfinityWord();
      r := InfinityRun(k, Goto(m, Inf).(pb := "", stPos := 0), m.below, "Infinity", s);
    } else if c == 'N' || c == 'n' {
      r := EitherRun(k, Goto(m, NullLit).(pb := "", stPos := 0), "null", "NaN", s);
    } else if c == 'T' || c == 't' || c == 'F' || c == 'f' {
      r := EitherRun(k, Goto(m, Boolean).(pb := "", stPos := 0), "true", "false", s);
    }
  }

  lemma InfinityWord()
    ensures "Infinity"[0..] == "Infinity" && WordValue("Infinity") == Double("Infinity")
  {
  }

  function ReadWord(mode: Mode, word: string, s: string): Got<Json> {
    if Named(mode, word, s) then Got(WordValue(word), s[|word|..]) else Nope
  }

  /** The first letter tells which literals it can be. */
  lemma LiteralIs(mode: Mode, s: string)
    requires mode != Rfc
    ensures var c := Peek(s);
            ReadLiteral(mode, s) ==
            if c == 'N' || c == 'n' then ReadEither(mode, "null", "NaN", s)
            else if c == 'T' || c == 't' || c == 'F' || c == 'f' then ReadEither(mode, "true", "false", s)
            else if c == 'I' || c == 'i' then ReadWord(mode, "Infinity", s)
            else Nope
  {
    hide Named;
    FirstLetter(mode, "null", s);
    FirstLetter(mode, "NaN", s);
    FirstLetter(mode, "true", s);
    FirstLetter(mode, "false", s);
    FirstLetter(mode, "Infinity", s);
  }

  lemma FirstLetter(mode: Mode, word: string, s: string)
    requires word != ""
    ensures Named(mode, word, s) ==> SameLetter(mode, word[0], Peek(s))
  {
  }

  // ------------------------------------------------------------ the gap behind a value

  /** Behind a value comes its gap; a text that ends in a comment there comes to the value. */
  lemma BehindValue(k: Config, below: seq<Srec>, x: Option<Success>, g: Got<Json>, r: Mach) returns (q: Mach)
    requires Left(k, below, x, g, r) && (g.Got? ==> NulFree(g.rest))
    ensures Left(k, below, x, Gapped(ModeOf(k), g), q)
    ensures Gapped(ModeOf(k), g).Got? ==> Bare(k, Peek(Gapped(ModeOf(k), g).rest))
  {
    hide Step, Call, Result;
    q := r;
    if g.Got? {
      if DoneWith(below, r, g.val) && x == Result(k, r, g.rest) {
        q := GapRun(k, r, g.rest);
      } else {
        NoGap(ModeOf(k), g.rest);
      }
    }
  }

  lemma NoGap(mode: Mode, s: string)
    requires !EndsNumber(Peek(s))
    ensures Skip(mode, s) == Past(s)
  {
  }

  // ------------------------------------------------------------ arrays

  /** What stands behind an element: a comma, the bracket, or an error. */
  lemma ElementEnds(k: Config, below: seq<Srec>, w: Srec, done: seq<Json>, r: Mach, v: Json, u: string)
    returns (b: Mach)
    requires DoneWith(below + [w], r, v) && NulFree(u) && Bare(k, Peek(u))
    requires w.state == ArrayAdd && w.current == Arr(done) && w.field == None
    ensures if Peek(u) == ',' || Peek(u) == ']' then
              && b.below == below && Awaits(b, if Peek(u) == ',' then ArrayAfterSep else Finish, Arr(done + [v]))
              && Result(k, r, u) == Result(k, b, u[1..])
            else Result(k, r, u) == None
  {
    hide Step, Call, Eat;
    var t := u + [NUL];
    assert t[0] == Peek(u);
    var a := Appended(k, below, w, done, r, v, t);
    b := a;
    if Peek(u) == ',' || Peek(u) == ']' {
      b := ArraySepTurns(k, a, done + [v], t);
      assert t[1..] == u[1..] + [NUL];
    } else {
      StackTurn(k, a, Peek(u));
      RunHalt(k, a, u, a, ParseArray);
    }
  }

  /** A bracket behind a comma, and an element without room. */
  lemma ElementRefused(k: Config, m: Mach, saved: State, done: seq<Json>, s: string) returns (r: Mach)
    requires Awaits(m, saved, Arr(done)) && ArrayEntry(saved) && Bare(k, Peek(s)) && NulFree(s)
    requires if Peek(s) == ']' then saved == ArrayAfterSep else |m.below| + 1 >= k.maxDepth
    ensures if Peek(s) == ']' && !k.strict then
              DoneWith(m.below, r, Arr(done)) && Result(k, m, s) == Result(k, r, s[1..])
            else Result(k, m, s) == None
  {
    hide Step, Call, Result;
    var a := Goto(m, saved);
    TokenTurn(k, m, Peek(s));
    RunRedo(k, m, s, a);
    StackTurn(k, a, Peek(s));
    r := EatThen(a, Finish);
    if Peek(s) == ']' && !k.strict {
      RunAdvance(k, a, s, r);
    } else {
      RunHalt(k, a, s, a, Step(k, a, Peek(s)).err.value);
    }
  }

  lemma BracketIsNoValue(mode: Mode, s: string, room: int)
    requires s != "" && s[0] == ']' && mode != Rfc
    ensures ReadValue(mode, s, room) == Nope
  {
    LiteralIs(mode, s);
  }

  /** One element, and what stands behind it. */
  lemma ElementRun(k: Config, m: Mach, saved: State, done: seq<Json>, s: string) returns (b: Mach)
    requires Awaits(m, saved, Arr(done)) && ArrayEntry(saved) && NulFree(s)
    requires Bare(k, Peek(s)) && Peek(s) != ']' && |m.below| + 1 < k.maxDepth
    ensures var e := Gapped(ModeOf(k), ReadValue(ModeOf(k), s, k.maxDepth - 2 - |m.below|));
            var x := Result(k, m, s);
            match e
            case Got(v, u) =>
              if Peek(u) == ',' || Peek(u) == ']' then
                && b.below == m.below && Awaits(b, if Peek(u) == ',' then ArrayAfterSep else Finish, Arr(done + [v]))
                && x == Result(k, b, u[1..])
              else x == None
            case Cut(v) => x == Some(Success(v, ""))
            case Nope => x == None
    decreases |s|, 2
  {
    hide Step, Call, Eat, ReadValue, Gapped;
    var q, w := ElementOpens(k, m, saved, done, s + [NUL]);
    var g := ReadValue(ModeOf(k), s, k.maxDepth - 2 - |m.below|);
    var d := ValueRun(k, q, s);
    d := BehindValue(k, q.below, Result(k, q, s), g, d);
    var e := Gapped(ModeOf(k), g);
    b := m;
    if e.Got? && DoneWith(q.below, d, e.val) && Result(k, q, s) == Result(k, d, e.rest) {
      b := ElementEnds(k, m.below, w, done, d, e.val, e.rest);
    }
  }

  /** From an element to the closing bracket. */
  lemma {:induction false} ElementsRun(k: Config, m: Mach, saved: State, done: seq<Json>, s: string) returns (r: Mach)
    requires Awaits(m, saved, Arr(done)) && ArrayEntry(saved) && NulFree(s) && Bare(k, Peek(s))
    requires saved == Array ==> Peek(s) != ']'
    requires saved == ArrayAfterSep <==> done != []
    ensures Left(k, m.below, Result(k, m, s), ReadElements(ModeOf(k), s, k.maxDepth - 1 - |m.below|, done), r)
    decreases |s|, 3
  {
    hide Step, Call, Eat, Result, ReadValue, Skip, EndsNumber;
    var room := k.maxDepth - 1 - |m.below|;
    r := m;
    if Peek(s) == ']' {
      r := ElementRefused(k, m, saved, done, s);
      BracketIsNoValue(ModeOf(k), s, room - 1);
    } else if room < 1 {
      r := ElementRefused(k, m, saved, done, s);
    } else {
      r := ElementRun(k, m, saved, done, s);
      var e := Gapped(ModeOf(k), ReadValue(ModeOf(k), s, room - 1));
      if e.Got? && Peek(e.rest) == ',' {
        var b := GapRun(k, r, e.rest[1..]);
        var g := Skip(ModeOf(k), e.rest[1..]);
        if g.Past? {
          r := ElementsRun(k, b, ArrayAfterSep, done + [e.val], g.rest);
        }
      }
    }
  }

  lemma ArrayRun(k: Config, m: Mach, s: string) returns (r: Mach)
    requires AtValue(m) && NulFree(s) && s != "" && s[0] == '['
    ensures Left(k, m.below, Result(k, m, s), ReadValue(ModeOf(k), s, k.maxDepth - 1 - |m.below|), r)
    decreases |s|, 0
  {
    hide Step, Call, Result, ReadElements, Skip;
    RunOpened(k, m, s);
    var b := m.(top := Srec(EatWs, Array, Arr([]), None));
    var g := Skip(ModeOf(k), s[1..]);
    var a := GapRun(k, b, s[1..]);
    r := m;
    if g.Past? {
      if Peek(g.rest) == ']' {
        r := EmptyRun(k, a, Array, Arr([]), g.rest);
      } else {
        r := ElementsRun(k, a, Array, [], g.rest);
      }
    }
  }

  /** The closing bracket of an empty container. */
  lemma EmptyRun(k: Config, b: Mach, s: State, current: Json, u: string) returns (r: Mach)
    requires Awaits(b, s, current) && u != ""
    requires (s == Array && u[0] == ']') || (s == FieldStart && u[0] == '}')
    ensures DoneWith(b.below, r, current) && Result(k, b, u) == Result(k, r, u[1..])
  {
    hide Step, Call, Result, Eat;
    r := EmptyCloses(k, b, s, current, [u[0]]);
    RunEat(k, b, [u[0]], u[1..]);
    assert u == [u[0]] + u[1..];
  }

  // ------------------------------------------------------------ objects

  /** A member's name; by default a brace behind a comma instead. */
  lemma NameRun(k: Config, m: Mach, saved: State, current: Json, s: string) returns (r: Mach)
    requires Awaits(m, saved, current) && FieldEntry(saved) && NulFree(s) && Bare(k, Peek(s)) && Peek(s) != '}'
    ensures var n := ReadName(ModeOf(k), s);
            if n.Got? then
              && r.below == m.below && r.top == Srec(EatWs, FieldEnd, current, Some(n.val)) && Clean(r)
              && Result(k, m, s) == Result(k, r, n.rest)
            else Result(k, m, s) == None
  {
    hide Step, Call, Result, Eat, ReadString, ItemsOk, Meaning, Closed, CString;
    var c := Peek(s);
    var a := Goto(m, saved);
    TokenTurn(k, m, c);
    RunRedo(k, m, s, a);
    StackTurn(k, a, c);
    r := m;
    if c == '"' || c == '\'' {
      var n := Goto(a, ObjectField).(quote := c, pb := "");
      RunAdvance(k, a, s, n);
      var t := ReadString(ModeOf(k), c, s[1..]);
      if t.Got? {
        r := StringReads(k, n, ObjectField, c, s[1..]);
        ClosedIsNamed(n, r, Meaning(c, 0, t.val));
      } else {
        StringFails(k, n, ObjectField, c, 0, "", s[1..]);
      }
    } else {
      RunHalt(k, a, s, a, ParseObjectKeyName);
    }
  }

  lemma ClosedIsNamed(m: Mach, r: Mach, text: string)
    requires Closed(m, r, ObjectField, text) && Clean(m)
    ensures r.below == m.below && r.top == Srec(EatWs, FieldEnd, m.top.current, Some(CString(text))) && Clean(r)
  {
  }

  /** The brace behind a comma. */
  lemma BraceBehindComma(k: Config, m: Mach, current: Json, s: string) returns (r: Mach)
    requires Awaits(m, FieldStartAfterSep, current) && NulFree(s) && Peek(s) == '}'
    ensures if k.strict then Result(k, m, s) == None
            else DoneWith(m.below, r, current) && Result(k, m, s) == Result(k, r, s[1..])
  {
    hide Step, Call, Result;
    var a := Goto(m, FieldStartAfterSep);
    TokenTurn(k, m, '}');
    RunRedo(k, m, s, a);
    StackTurn(k, a, '}');
    r := EatThen(a, Finish);
    if k.strict {
      RunHalt(k, a, s, a, ParseUnexpected);
    } else {
      RunAdvance(k, a, s, r);
    }
  }

  /** The colon, at the end of the gap behind a name. */
  lemma ColonRun(k: Config, m: Mach, current: Json, key: string, t: string) returns (r: Mach)
    requires m.top == Srec(EatWs, FieldEnd, current, Some(key)) && Clean(m) && NulFree(t) && Bare(k, Peek(t))
    ensures if Peek(t) == ':' then
              && r.below == m.below && r.top == Srec(EatWs, ObjectValue, current, Some(key)) && Clean(r)
              && Result(k, m, t) == Result(k, r, t[1..])
            else Result(k, m, t) == None
  {
    hide Step, Call, Result;
    var a := Goto(m, FieldEnd);
    TokenTurn(k, m, Peek(t));
    RunRedo(k, m, t, a);
    StackTurn(k, a, Peek(t));
    r := a;
    if Peek(t) == ':' {
      r := EatThen(a, ObjectValue);
      RunAdvance(k, a, t, r);
    } else {
      RunHalt(k, a, t, a, ParseObjectKeySep);
    }
  }

  /** A name, its colon, and the gaps behind both. */
  lemma KeyRun(k: Config, m: Mach, saved: State, current: Json, s: string) returns (r: Mach)
    requires Awaits(m, saved, current) && FieldEntry(saved) && NulFree(s) && Bare(k, Peek(s)) && Peek(s) != '}'
    ensures var n := ReadKey(ModeOf(k), s);
            if n.Got? then
              && r.below == m.below && r.top == Srec(EatWs, ObjectValue, current, Some(n.val)) && Clean(r)
              && Result(k, m, s) == Result(k, r, n.rest) && Bare(k, Peek(n.rest))
            else Result(k, m, s) == None
  {
    hide Step, Call, Result, ReadName, Skip;
    var n := ReadName(ModeOf(k), s);
    r := NameRun(k, m, saved, current, s);
    if n.Got? {
      var a := GapRun(k, r, n.rest);
      var g := Skip(ModeOf(k), n.rest);
      if g.Past? {
        var b := ColonRun(k, a, current, n.val, g.rest);
        if Peek(g.rest) == ':' {
          r := GapRun(k, b, g.rest[1..]);
        }
      }
    }
  }

  /** Behind the colon there may be no room for the level of the value. */
  lemma MemberRefused(k: Config, m: Mach, s: string)
    requires m.top.state == EatWs && m.top.saved == ObjectValue && Bare(k, Peek(s)) && |m.below| + 1 >= k.maxDepth
    ensures Result(k, m, s) == None
  {
    hide Step, Call, Result;
    var a := Goto(m, ObjectValue);
    TokenTurn(k, m, Peek(s));
    RunRedo(k, m, s, a);
    StackTurn(k, a, Peek(s));
    RunHalt(k, a, s, a, Depth);
  }

  /** What stands behind a member: a comma, the brace, or an error. */
  lemma MemberEnds(k: Config, below: seq<Srec>, w: Srec, done: seq<Field>, key: string, r: Mach, v: Json, u: string)
    returns (b: Mach)
    requires DoneWith(below + [w], r, v) && NulFree(u) && Bare(k, Peek(u))
    requires w.state == ObjectValueAdd && w.current == Obj(done) && w.field == Some(key)
    ensures if Peek(u) == ',' || Peek(u) == '}' then
              && b.below == below
              && Awaits(b, if Peek(u) == ',' then FieldStartAfterSep else Finish, Obj(Put(done, key, v)))
              && Result(k, r, u) == Result(k, b, u[1..])
            else Result(k, r, u) == None
  {
    hide Step, Call, Eat, Put;
    var t := u + [NUL];
    assert t[0] == Peek(u);
    var a := Added(k, below, w, done, key, r, v, t);
    b := a;
    if Peek(u) == ',' || Peek(u) == '}' {
      b := ObjectSepTurns(k, a, Obj(Put(done, key, v)), t);
      assert t[1..] == u[1..] + [NUL];
    } else {
      StackTurn(k, a, Peek(u));
      RunHalt(k, a, u, a, ParseObjectValueSep);
    }
  }

  /** The value of a member, and what stands behind it. */
  lemma MemberRun(k: Config, m: Mach, done: seq<Field>, key: string, s: string) returns (b: Mach)
    requires m.top == Srec(EatWs, ObjectValue, Obj(done), Some(key)) && Clean(m) && NulFree(s)
    requires Bare(k, Peek(s)) && |m.below| + 1 < k.maxDepth
    ensures var e := Gapped(ModeOf(k), ReadValue(ModeOf(k), s, k.maxDepth - 2 - |m.below|));
            var x := Result(k, m, s);
            match e
            case Got(v, u) =>
              if Peek(u) == ',' || Peek(u) == '}' then
                && b.below == m.below
                && Awaits(b, if Peek(u) == ',' then FieldStartAfterSep else Finish, Obj(Put(done, key, v)))
                && x == Result(k, b, u[1..])
              else x == None
            case Cut(v) => x == Some(Success(v, ""))
            case Nope => x == None
    decreases |s|, 2
  {
    hide Step, Call, Eat, ReadValue, Gapped, Put;
    var q, w := MemberOpens(k, m, Obj(done), key, s + [NUL]);
    var g := ReadValue(ModeOf(k), s, k.maxDepth - 2 - |m.below|);
    var d := ValueRun(k, q, s);
    d := BehindValue(k, q.below, Result(k, q, s), g, d);
    var e := Gapped(ModeOf(k), g);
    b := m;
    if e.Got? && DoneWith(q.below, d, e.val) && Result(k, q, s) == Result(k, d, e.rest) {
      b := MemberEnds(k, m.below, w, done, key, d, e.val, e.rest);
    }
  }

  /** From a member's name to the closing brace. */
  lemma {:induction false} MembersRun(k: Config, m: Mach, saved: State, done: seq<Field>, s: string) returns (r: Mach)
    requires Awaits(m, saved, Obj(done)) && FieldEntry(saved) && NulFree(s) && Bare(k, Peek(s))
    requires saved == FieldStart ==> Peek(s) != '}'
    requires saved == FieldStartAfterSep <==> done != []
    ensures Left(k, m.below, Result(k, m, s), ReadMembers(ModeOf(k), s, k.maxDepth - 1 - |m.below|, done), r)
    decreases |s|, 3
  {
    hide Step, Call, Eat, Result, ReadMember, ReadKey, Skip;
    var room := k.maxDepth - 1 - |m.below|;
    var n := ReadKey(ModeOf(k), s);
    r := m;
    if Peek(s) == '}' {
      r := BraceBehindComma(k, m, Obj(done), s);
      BraceIsNoName(ModeOf(k), s);
    } else {
      r := KeyRun(k, m, saved, Obj(done), s);
      if n.Got? {
        r := MemberOn(k, r, done, n.val, n.rest);
      }
    }
  }

  lemma BraceIsNoName(mode: Mode, s: string)
    requires s != "" && s[0] == '}'
    ensures ReadKey(mode, s) == Nope
  {
  }

  lemma {:induction false} MemberOn(k: Config, m: Mach, done: seq<Field>, key: string, s: string) returns (r: Mach)
    requires m.top == Srec(EatWs, ObjectValue, Obj(done), Some(key)) && Clean(m) && NulFree(s) && Bare(k, Peek(s))
    ensures Left(k, m.below, Result(k, m, s), ReadMember(ModeOf(k), s, k.maxDepth - 1 - |m.below|, done, key), r)
    decreases |s|, 3
  {
    hide Step, Call, Eat, Result, ReadValue, ReadMembers, Put, Skip;
    var room := k.maxDepth - 1 - |m.below|;
    r := m;
    if room < 1 {
      MemberRefused(k, m, s);
    } else {
      r := MemberRun(k, m, done, key, s);
      var e := Gapped(ModeOf(k), ReadValue(ModeOf(k), s, room - 1));
      if e.Got? && Peek(e.rest) == ',' {
        var b := GapRun(k, r, e.rest[1..]);
        var g := Skip(ModeOf(k), e.rest[1..]);
        if g.Past? {
          PutSome(done, key, e.val);
          r := MembersRun(k, b, FieldStartAfterSep, Put(done, key, e.val), g.rest);
        }
      }
    }
  }

  lemma PutSome(done: seq<Field>, key: string, v: Json)
    ensures Put(done, key, v) != []
  {
  }

  lemma ObjectRun(k: Config, m: Mach, s: string) returns (r: Mach)
    requires AtValue(m) && NulFree(s) && s != "" && s[0] == '{'
    ensures Left(k, m.below, Result(k, m, s), ReadValue(ModeOf(k), s, k.maxDepth - 1 - |m.below|), r)
    decreases |s|, 0
  {
    hide Step, Call, Result, ReadMembers, Skip;
    RunOpened(k, m, s);
    var b := m.(top := Srec(EatWs, FieldStart, Obj([]), None));
    var g := Skip(ModeOf(k), s[1..]);
    var a := GapRun(k, b, s[1..]);
    r := m;
    if g.Past? {
      if Peek(g.rest) == '}' {
        r := EmptyRun(k, a, FieldStart, Obj([]), g.rest);
      } else {
        r := MembersRun(k, a, FieldStart, [], g.rest);
      }
    }
  }

  // ------------------------------------------------------------ any value

  lemma {:induction false} ValueRun(k: Config, m: Mach, s: string) returns (r: Mach)
    requires AtValue(m) && NulFree(s) && Bare(k, Peek(s))
    ensures Left(k, m.below, Result(k, m, s), ReadValue(ModeOf(k), s, k.maxDepth - 1 - |m.below|), r)
    decreases |s|, 1
  {
    hide Step, Call, Result, Left, ReadQuoted, ReadNumber, ReadLiteral, ReadElements, ReadMembers, Skip;
    if s == "" {
      r := LiteralRun(k, m, s);
      LiteralIs(ModeOf(k), s);
    } else if StringQuote(ModeOf(k), s[0]) {
      r := StringRun(k, m, s);
    } else if s[0] == '[' {
      r := ArrayRun(k, m, s);
    } else if s[0] == '{' {
      r := ObjectRun(k, m, s);
    } else if StartsNumber(s) {
      r := NumberRead(k, m, s);
    } else {
      r := LiteralRun(k, m, s);
    }
  }

  // ------------------------------------------------------------ a whole text

  /** Text behind the whole value is left alone, unless strict parsing forbids it. */
  predicate TrailingAllowed(k: Config) {
    !k.strict || k.allowTrailing
  }

  /**
   `json_tokener_parse_verbose`, in every configuration: it succeeds exactly on the texts of the grammar
   of its mode, gives the value that the grammar reads, and stops where the grammar does.
   */
  lemma ParseIsGrammar(k: Config, t: string)
    requires NulFree(t)
    ensures SuccessOf(ParseText(k, t)) ==
            match ReadText(ModeOf(k), t, k.maxDepth, TrailingAllowed(k))
            case Got(v, u) => Some(Success(v, u + [NUL]))
            case Cut(v) => Some(Success(v, ""))
            case Nope => None
  {
    hide Step, Call, ReadValue, Left, Skip, Gapped;
    assert SuccessOf(ParseText(k, t)) == Result(k, FRESH, t);
    var g := Skip(ModeOf(k), t);
    var m := GapRun(k, FRESH, t);
    if g.Past? {
      var v := ReadValue(ModeOf(k), g.rest, k.maxDepth - 1);
      var r := ValueRun(k, m, g.rest);
      r := BehindValue(k, [], Result(k, m, g.rest), v, r);
      AtTop(k, Result(k, m, g.rest), Gapped(ModeOf(k), v), r);
    }
  }

  lemma AtTop(k: Config, x: Option<Success>, g: Got<Json>, r: Mach)
    requires Left(k, [], x, g, r) && (g.Got? ==> NulFree(g.rest) && Bare(k, Peek(g.rest)))
    ensures x == match g
                 case Got(v, u) => if u == "" || TrailingAllowed(k) then Some(Success(v, u + [NUL])) else None
                 case Cut(v) => Some(Success(v, ""))
                 case Nope => None
  {
    hide Step, Call;
    if g.Got? {
      var c := Peek(g.rest);
      var fin := Goto(r, Finish);
      TokenTurn(k, r, c);
      RunRedo(k, r, g.rest, fin);
      StackTurn(k, fin, c);
      FinishTop(k, fin, g.rest);
    }
  }

  lemma FinishTop(k: Config, fin: Mach, u: string)
    requires fin.top.state == Finish && fin.below == [] && NulFree(u) && Step(k, fin, Peek(u)) == Halt(fin, None)
    ensures Result(k, fin, u) ==
            if u == "" || TrailingAllowed(k) then Some(Success(fin.top.current, u + [NUL])) else None
  {
    hide Step;
    assert (u + [NUL])[0] == Peek(u);
  }

  /** Every text of RFC 8259 whose integers fit 64 bits is accepted in every configuration, as what it says. */
  lemma RfcIsParsed(k: Config, t: string)
    requires NulFree(t) && ReadText(Rfc, t, k.maxDepth, false).Got?
    ensures SuccessOf(ParseText(k, t)) == Some(Success(ReadText(Rfc, t, k.maxDepth, false).val, [NUL]))
  {
    hide ParseText, ReadText;
    ParseIsGrammar(k, t);
    RfcIsRead(ModeOf(k), t, k.maxDepth, TrailingAllowed(k));
    assert "" + [NUL] == [NUL];
  }

  /** The value and `error` of `json_tokener_parse_verbose`, with the depth and flags of `k`. */
  method ParseVerbose(k: Config, t: string) returns (obj: Option<Json>, err: Tokener.Status)
    requires k.maxDepth >= 1 && NulFree(t)
    ensures obj == match ReadText(ModeOf(k), t, k.maxDepth, TrailingAllowed(k))
                   case Got(v, _) => Some(v)
                   case Cut(v) => Some(v)
                   case Nope => None
    ensures err == Tokener.Success <==> obj.Some?
  {
    hide Parse, ReadText;
    ParseIsGrammar(k, t);
    var tok := new Tokener.Tokener(k);
    obj := tok.ParseEx(t + [NUL]);
    err := tok.err;
  }
}
