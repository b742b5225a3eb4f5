/**
 Using a tokener for one text after another. After `json_tokener_reset` it parses every text as a
 new one does, except that a surrogate still waiting for its partner is carried along; after a
 value that left no level open it is as good as new.
 */
module TokenerReset {
  import opened Basics
  import opened OrderedMap
  import opened JsonValue
  import opened Decimal
  import opened TokenerMachine
  import opened StringLiteral
  import opened TokenerCut
  import opened TokenerRun
  import opened TokenerAlike

  // ------------------------------------------------------------ reset

  lemma Redone(k: Config, m: Mach, s: string, m': Mach)
    requires s != "" && Step(k, m, s[0]) == Redo(m')
    ensures Call(k, m, s) == Call(k, m', s)
  {
    hide Step;
  }

  lemma ReadOn(k: Config, m: Mach, s: string, m': Mach)
    requires s != "" && s[0] != NUL && Step(k, m, s[0]) == Advance(m')
    ensures Call(k, m, s) == Call(k, m', s[1..])
  {
    hide Step;
  }

  /** The opening quote of a string at the very beginning. */
  lemma QuoteOpens(k: Config, m: Mach, rest: string) returns (r: Mach)
    requires m.top == LEVEL_RESET
    ensures r == m.(top := LEVEL_RESET.(state := StringS), pb := "", quote := '"')
    ensures Call(k, m, ['"'] + rest) == Call(k, r, rest)
  {
    hide Call, Step;
    var s := ['"'] + rest;
    EatWsTurn(k, m, '"');
    Redone(k, m, s, Goto(m, Start));
    StartTurn(k, Goto(m, Start), '"');
    r := m.(top := LEVEL_RESET.(state := StringS), pb := "", quote := '"');
    ReadOn(k, Goto(m, Start), s, r);
    assert s[1..] == rest;
  }

  const LETTER: string := ['"', '\\', 'u', '0', '0', '4', '1', '"']

  /** Reading the string "A", written with an escape, shows a surrogate that was left waiting. */
  lemma LetterRead(k: Config, m: Mach) returns (r: Mach)
    requires m.top == LEVEL_RESET
    ensures Parse(k, m, LETTER) == AtEnd(r) && r.below == m.below
    ensures r.top.state == EatWs && r.top.saved == Finish && r.top.current == Str(Flush(m.high) + "A")
  {
    hide Call, Eat, Step, EscapeDone;
    var q := QuoteOpens(k, m, LETTER[1..]);
    assert LETTER == ['"'] + LETTER[1..];
    TextTurn(k, q, '\\');
    var e := q.(top := q.top.(state := StringEscape, saved := StringS));
    ReadOn(k, q, LETTER[1..], e);
    TextTurn(k, e, 'u');
    var u := Goto(e, EscapeUnicode).(ucs := 0, stPos := 0);
    ReadOn(k, e, LETTER[1..][1..], u);
    var i := Unit('0', '0', '4', '1');
    var d := EatUnit(k, u, i);
    EatThenCall(k, u, [i.a, i.b, i.c3, i.d], ['"']);
    assert LETTER[1..][1..][1..] == [i.a, i.b, i.c3, i.d] + ['"'];
    LetterDone(u);
    r := LetterCloses(k, d, Flush(m.high) + "A");
  }

  lemma LetterDone(u: Mach)
    requires u.pb == "" && u.top.saved == StringS
    ensures UnitValue(Unit('0', '0', '4', '1')) == 0x41
    ensures EscapeDone(u, 0x41) == u.(pb := Flush(u.high) + "A", high := 0, stPos := 0, ucs := 0x41,
        top := u.top.(state := StringS))
  {
    assert "" + REPLACEMENT + "A" == REPLACEMENT + "A" && "" + "A" == "A";
  }

  lemma LetterCloses(k: Config, d: Mach, text: string) returns (r: Mach)
    requires d.top.state == StringS && d.quote == '"' && d.pb == text
    ensures r == Finished(d, Str(text)) && Call(k, d, ['"']) == AtEnd(r)
  {
    hide Step;
    TextTurn(k, d, '"');
    r := Finished(d, Str(text));
    ReadOn(k, d, ['"'], r);
    assert ['"'][1..] == "";
  }

  /** A waiting surrogate or an open level makes a difference to that string. */
  lemma LetterTells(k: Config, m: Mach)
    requires m.top == LEVEL_RESET && (m.high != 0 || m.below != [])
    ensures !AlikeOutcomes(Parse(k, m, LETTER), Parse(k, FRESH, LETTER))
  {
    hide Parse;
    var a := LetterRead(k, m);
    var b := LetterRead(k, FRESH);
    assert |REPLACEMENT + "A"| == 4 && |"" + "A"| == 1;
  }

  /**
   A reset tokener parses every text as a new one does, exactly when no surrogate was waiting for
   its partner: `json_tokener_reset` does not clear that one.
   */
  lemma ResetIsNewExactly(k: Config, m: Mach)
    requires k.maxDepth > 0
    ensures m.high == 0 <==> forall s :: AlikeOutcomes(Parse(k, Reset(m), s), Parse(k, FRESH, s))
  {
    hide Parse, AlikeOutcomes;
    if m.high == 0 {
      forall s
        ensures AlikeOutcomes(Parse(k, Reset(m), s), Parse(k, FRESH, s))
      {
        LikeNewParses(k, Reset(m), s);
      }
    } else {
      LetterTells(k, Reset(m));
    }
  }

  const HALF_PAIR: string := ['"', '\\', 'u', 'd', '8', '3', 'c']

  /** A call can end with a surrogate waiting: half a pair, and no more text. */
  lemma SurrogateCanWait(k: Config)
    ensures var o := Parse(k, FRESH, HALF_PAIR); o.Continue? && o.at.high == 0xD83C
  {
    hide Call, Eat, Step, EscapeDone, UnitValue;
    var q := QuoteOpens(k, FRESH, HALF_PAIR[1..]);
    assert HALF_PAIR == ['"'] + HALF_PAIR[1..];
    var i := Unit('d', '8', '3', 'c');
    UnitIs();
    var r := EatItem(k, q, StringS, '"', 0, "", i);
    assert ItemText(i) + [] == HALF_PAIR[1..];
    EatThenCall(k, q, ItemText(i), []);
    StillWaits(k, r);
  }

  lemma UnitIs()
    ensures var e := ItemEffect('"', 0, Unit('d', '8', '3', 'c')); e.high == 0xD83C && e.out == ""
  {
    var i := Unit('d', '8', '3', 'c');
    assert ItemOk('"', i) && UnitValue(i) == 0xD83C;
    HighAlone('"', 0xD83C, i);
  }

  lemma StillWaits(k: Config, r: Mach)
    requires r.top.state == NeedEscape
    ensures Call(k, r, []) == Continue(r)
  {
  }

  // ------------------------------------------------------------ after a success

  /** Outside the escapes of a string no surrogate waits. */
  predicate NoneWaits(m: Mach) {
    m.high != 0 ==> ReadsUnit(m.top.state)
  }

  lemma TextKeepsNoneWaits(k: Config, m: Mach, c: char)
    requires NoneWaits(m) && TextState(m.top.state)
    ensures NoneWaits(Step(k, m, c).m)
  {
    hide Step, SimpleEscape, Utf8Bytes, IsHighSurrogate, IsLowSurrogate, DecodePair, Pow16, HexValue, CString;
    TextTurn(k, m, c);
  }

  lemma LiteralKeepsHigh(k: Config, m: Mach, c: char)
    requires LiteralState(m.top.state)
    ensures Step(k, m, c).m.high == m.high
  {
    hide Step, LiteralMatches, NumberValue, TrimExponent, EndsNumber, NumberChar;
    LiteralTurn(k, m, c);
  }

  lemma BlankKeepsHigh(k: Config, m: Mach, c: char)
    requires BlankState(m.top.state)
    ensures Step(k, m, c).m.high == m.high
  {
    hide Step;
    LiteralTurn(k, m, c);
    if m.top.state == Start {
      StartTurn(k, m, c);
    } else if m.top.state == EatWs {
      EatWsTurn(k, m, c);
    }
  }

  lemma StackKeepsHigh(k: Config, m: Mach, c: char)
    requires !LiteralState(m.top.state) && !BlankState(m.top.state) && !TextState(m.top.state)
    ensures Step(k, m, c).m.high == m.high
  {
    hide Step, Put;
    StackTurn(k, m, c);
  }

  lemma StepKeepsNoneWaits(k: Config, m: Mach, c: char)
    requires NoneWaits(m)
    ensures NoneWaits(Step(k, m, c).m)
  {
    hide Step;
    if TextState(m.top.state) {
      TextKeepsNoneWaits(k, m, c);
    } else if LiteralState(m.top.state) {
      LiteralKeepsHigh(k, m, c);
    } else if BlankState(m.top.state) {
      BlankKeepsHigh(k, m, c);
    } else {
      StackKeepsHigh(k, m, c);
    }
  }

  predicate CommentState(s: State) {
    s == CommentStart || s == Comment || s == CommentEol || s == CommentEnd
  }

  /** A value or a name that is begun is not over, and what is quoted ends in a quotation mark. */
  predicate NotEnding(m: Mach) {
    var s := m.top.state;
    && (s == Start || s == StringS || s == ObjectField || s == FieldStart || s == FieldStartAfterSep || LiteralState(s)
        ==> m.top.saved != Finish)
    && (TextState(s) ==> m.quote != NUL)
  }

  lemma TextKeepsNotEnding(k: Config, m: Mach, c: char)
    requires NotEnding(m) && TextState(m.top.state) && Inv(k, m)
    ensures NotEnding(Step(k, m, c).m)
  {
    hide Step, SimpleEscape, Utf8Bytes, IsHighSurrogate, IsLowSurrogate, DecodePair, Pow16, HexValue, CString;
    TextTurn(k, m, c);
  }

  lemma NumberKeepsNotEnding(k: Config, m: Mach, c: char)
    requires NotEnding(m) && m.top.state == NumberS
    ensures NotEnding(StepNumber(k, m, c).m)
  {
    hide NumberValue, TrimExponent, EndsNumber, NumberChar;
  }

  lemma LiteralKeepsNotEnding(k: Config, m: Mach, c: char)
    requires NotEnding(m) && LiteralState(m.top.state)
    ensures NotEnding(Step(k, m, c).m)
  {
    hide Step, LiteralMatches, StepNumber;
    LiteralTurn(k, m, c);
    if m.top.state == NumberS {
      NumberKeepsNotEnding(k, m, c);
    }
  }

  lemma BlankKeepsNotEnding(k: Config, m: Mach, c: char)
    requires NotEnding(m) && BlankState(m.top.state) && Inv(k, m)
    ensures NotEnding(Step(k, m, c).m)
  {
    hide Step, Inv;
    if m.top.state == Start {
      StartKeepsNotEnding(k, m, c);
    } else if m.top.state == EatWs {
      EatWsKeepsNotEnding(k, m, c);
    } else {
      LiteralTurn(k, m, c);
    }
  }

  lemma EatWsKeepsNotEnding(k: Config, m: Mach, c: char)
    requires Inv(k, m) && m.top.state == EatWs
    ensures NotEnding(Step(k, m, c).m)
  {
    hide Step, LevelsWait, LevelFits;
    EatWsTurn(k, m, c);
  }

  lemma StartKeepsNotEnding(k: Config, m: Mach, c: char)
    requires NotEnding(m) && m.top.state == Start
    ensures NotEnding(Step(k, m, c).m)
  {
    hide Step;
    StartTurn(k, m, c);
  }

  lemma StackKeepsNotEnding(k: Config, m: Mach, c: char)
    requires NotEnding(m) && !LiteralState(m.top.state) && !BlankState(m.top.state) && !TextState(m.top.state)
    requires m.top.state == Finish && m.below != [] ==>
              m.below[|m.below| - 1] == LEVEL_RESET || Adding(m.below[|m.below| - 1].state)
    ensures NotEnding(Step(k, m, c).m)
  {
    hide Step, Put;
    StackTurn(k, m, c);
  }

  lemma StepKeepsNotEnding(k: Config, m: Mach, c: char)
    requires NotEnding(m) && Inv(k, m)
    ensures NotEnding(Step(k, m, c).m)
  {
    hide Step, NotEnding, TopFits;
    if TextState(m.top.state) {
      TextKeepsNotEnding(k, m, c);
    } else if LiteralState(m.top.state) {
      LiteralKeepsNotEnding(k, m, c);
    } else if BlankState(m.top.state) {
      BlankKeepsNotEnding(k, m, c);
    } else {
      StackKeepsNotEnding(k, m, c);
    }
  }

  /** Where a NUL is read: inside strings, where the value goes on, and inside comments. */
  lemma NulRead(k: Config, m: Mach)
    requires NotEnding(m) && Inv(k, m) && Step(k, m, NUL).Advance?
    requires var n := Step(k, m, NUL).m; n.top.state == Finish || n.top.saved == Finish
    ensures CommentState(m.top.state) && m.top.saved == Finish
    ensures CommentState(Step(k, m, NUL).m.top.state)
  {
    hide Step, SimpleEscape, LiteralMatches, NumberValue, TrimExponent, CString, TopFits;
    if TextState(m.top.state) {
      NulInText(k, m);
    } else if LiteralState(m.top.state) {
      NulInLiteral(k, m);
    } else if BlankState(m.top.state) {
      LiteralTurn(k, m, NUL);
      if m.top.state == Start {
        StartTurn(k, m, NUL);
      } else if m.top.state == EatWs {
        EatWsTurn(k, m, NUL);
      }
    } else {
      StackTurn(k, m, NUL);
    }
  }

  lemma NulInText(k: Config, m: Mach)
    requires NotEnding(m) && Inv(k, m) && TextState(m.top.state)
    ensures Step(k, m, NUL).Advance? ==> Step(k, m, NUL).m.top.saved != Finish && Step(k, m, NUL).m.top.state != Finish
  {
    hide Step;
    TextTurn(k, m, NUL);
  }

  lemma NulInLiteral(k: Config, m: Mach)
    requires NotEnding(m) && LiteralState(m.top.state)
    ensures Step(k, m, NUL).Advance? ==> Step(k, m, NUL).m.top.saved != Finish && Step(k, m, NUL).m.top.state != Finish
  {
    hide Step, LiteralMatches, NumberValue, TrimExponent;
    LiteralTurn(k, m, NUL);
  }

  /** What holds of a tokener before every call. */
  predicate Ready(k: Config, m: Mach) {
    Inv(k, m) && NotEnding(m)
  }

  lemma FreshIsReady(k: Config)
    requires k.maxDepth > 0
    ensures Ready(k, FRESH)
  {
  }

  /** The text ends, at its NUL, in a comment behind a finished value while a level is open. */
  predicate OpenComment(k: Config, m: Mach, s: string)
    decreases |s|, Rank(m)
  {
    s != "" &&
    match Step(k, m, s[0])
    case Redo(m') => OpenComment(k, m', s)
    case Advance(m') =>
      if s[0] == NUL then CommentState(m.top.state) && m.top.saved == Finish && m.below != []
      else OpenComment(k, m', s[1..])
    case Halt(_, _) => false
  }

  /** What a call leaves: ready for the next, with a level open exactly under such a comment. */
  predicate Left(k: Config, m: Mach, s: string, o: Outcome) {
    match o
    case Ok(_, after, _) =>
      && Ready(k, after) && after == ResetLevels(after)
      && (after.below != [] <==> OpenComment(k, m, s))
      && (NoneWaits(m) ==> after.high == 0)
    case Continue(at) => Ready(k, at) && (NoneWaits(m) ==> NoneWaits(at))
    case Fail(e, _) => e != Broken
  }

  lemma ResetLevelsReady(k: Config, m: Mach)
    requires Inv(k, m)
    ensures Ready(k, ResetLevels(m)) && ResetLevels(ResetLevels(m)) == ResetLevels(m)
    ensures ResetLevels(m).high == m.high && |ResetLevels(m).below| == |m.below|
  {
  }

  lemma AtEndLeaves(k: Config, m: Mach)
    requires Ready(k, m)
    ensures Left(k, m, "", AtEnd(m))
  {
    hide Inv, NotEnding, ResetLevels;
    ResetLevelsReady(k, m);
  }

  lemma HaltLeaves(k: Config, m: Mach, s: string)
    requires Ready(k, m) && s != "" && Step(k, m, s[0]).Halt?
    ensures Left(k, m, s, Out(k, Step(k, m, s[0]).m, s[0], Step(k, m, s[0]).err, s))
  {
    hide Step, Inv, NotEnding, ResetLevels;
    StepKeepsInv(k, m, s[0]);
    StackTurn(k, m, s[0]);
    ResetLevelsReady(k, m);
  }

  lemma NulLeaves(k: Config, m: Mach, s: string)
    requires Ready(k, m) && s != "" && s[0] == NUL && Step(k, m, NUL).Advance?
    ensures Left(k, m, s, Out(k, Step(k, m, NUL).m, NUL, None, s[1..]))
  {
    hide Step, Inv, NotEnding, ResetLevels;
    var n := Step(k, m, NUL).m;
    StepKeepsInv(k, m, NUL);
    if NoneWaits(m) {
      StepKeepsNoneWaits(k, m, NUL);
    }
    if n.top.state == Finish || n.top.saved == Finish {
      NulRead(k, m);
      ResetLevelsReady(k, n);
    }
  }

  lemma StepKeepsReady(k: Config, m: Mach, c: char)
    requires Ready(k, m) && !Step(k, m, c).Halt?
    ensures Ready(k, Step(k, m, c).m)
    ensures NoneWaits(m) ==> NoneWaits(Step(k, m, c).m)
  {
    hide Step, Inv, NotEnding, NoneWaits;
    StepKeepsInv(k, m, c);
    StepKeepsNotEnding(k, m, c);
    if NoneWaits(m) {
      StepKeepsNoneWaits(k, m, c);
    }
  }

  lemma {:induction false} CallLeaves(k: Config, m: Mach, s: string)
    requires Ready(k, m)
    ensures Left(k, m, s, Call(k, m, s))
    decreases |s|, Rank(m)
  {
    hide Step, Ready, Out, AtEnd, NoneWaits;
    if s == "" {
      AtEndLeaves(k, m);
    } else {
      if Step(k, m, s[0]).Halt? {
        HaltLeaves(k, m, s);
      } else {
        StepKeepsReady(k, m, s[0]);
        if Step(k, m, s[0]).Redo? {
          CallLeaves(k, Step(k, m, s[0]).m, s);
        } else if s[0] == NUL {
          NulLeaves(k, m, s);
        } else {
          CallLeaves(k, Step(k, m, s[0]).m, s[1..]);
        }
      }
    }
  }

  lemma ResumeReady(k: Config, m: Mach)
    requires Ready(k, m)
    ensures Ready(k, Resume(m))
    ensures NoneWaits(Resume(m)) == NoneWaits(m)
  {
  }

  lemma AllResetWaits(m: Mach)
    requires m == ResetLevels(m)
    ensures AllWait(m.below) <==> m.below == []
  {
    if m.below != [] {
      assert m.below[0] == LEVEL_RESET;
    }
  }

  /**
   After a value a level is still open if and only if the text ended in a comment behind that value.
   The next text is parsed as by a new tokener if and only if no level is open and no surrogate waits,
   and the finished children of that text go to containers if and only if no level is open.
   */
  lemma SuccessIsNewExactly(k: Config, m: Mach, s: string)
    requires Ready(k, m) && k.maxDepth > 0 && Parse(k, m, s).Ok?
    ensures var after := Parse(k, m, s).after;
            && Ready(k, after)
            && (after.below != [] <==> OpenComment(k, Resume(m), s))
            && (AllWait(after.below) <==> after.below == [])
            && (NoneWaits(m) ==> after.high == 0)
            && ((forall t :: AlikeOutcomes(Parse(k, after, t), Parse(k, FRESH, t))) <==>
                  after.below == [] && after.high == 0)
  {
    hide Ready, Call, OpenComment, AlikeOutcomes, NoneWaits, AllWait;
    ResumeReady(k, m);
    CallLeaves(k, Resume(m), s);
    var after := Parse(k, m, s).after;
    AllResetWaits(after);
    if after.below == [] && after.high == 0 {
      forall t
        ensures AlikeOutcomes(Parse(k, after, t), Parse(k, FRESH, t))
      {
        LikeNewParses(k, after, t);
      }
    } else {
      LetterTells(k, after);
    }
  }

  /** A value finished on a level that was left open goes nowhere: the level below starts over. */
  lemma OpenLevelDrops(k: Config, m: Mach, c: char)
    requires m.top.state == Finish && m.below != [] && m.below[|m.below| - 1] == LEVEL_RESET
    ensures Step(k, m, c) == Redo(m.(below := m.below[..|m.below| - 1], top := LEVEL_RESET))
  {
    hide Step;
    StackTurn(k, m, c);
  }

  lemma StrictText(k: Config, m: Mach, c: char)
    requires Inv(k, m) && TextState(m.top.state)
    ensures !CommentState(Step(k, m, c).m.top.state)
  {
    hide Step, SimpleEscape, Utf8Bytes, IsHighSurrogate, IsLowSurrogate, DecodePair, Pow16, HexValue, CString;
    TextTurn(k, m, c);
  }

  lemma StrictLiteral(k: Config, m: Mach, c: char)
    requires LiteralState(m.top.state)
    ensures !CommentState(Step(k, m, c).m.top.state)
  {
    hide Step, LiteralMatches, NumberValue, TrimExponent, EndsNumber, NumberChar;
    LiteralTurn(k, m, c);
  }

  lemma StrictBlank(k: Config, m: Mach, c: char)
    requires k.strict && Inv(k, m) && (m.top.state == Start || m.top.state == EatWs)
    ensures !CommentState(Step(k, m, c).m.top.state)
  {
    hide Step;
    if m.top.state == Start {
      StartTurn(k, m, c);
    } else {
      EatWsTurn(k, m, c);
    }
  }

  lemma StrictStack(k: Config, m: Mach, c: char)
    requires !LiteralState(m.top.state) && !BlankState(m.top.state) && !TextState(m.top.state)
    ensures !CommentState(Step(k, m, c).m.top.state)
  {
    hide Step, Put;
    StackTurn(k, m, c);
  }

  lemma StrictStep(k: Config, m: Mach, c: char)
    requires k.strict && Inv(k, m) && !CommentState(m.top.state)
    ensures !CommentState(Step(k, m, c).m.top.state)
  {
    hide Step, Inv;
    if TextState(m.top.state) {
      StrictText(k, m, c);
    } else if LiteralState(m.top.state) {
      StrictLiteral(k, m, c);
    } else if BlankState(m.top.state) {
      StrictBlank(k, m, c);
    } else {
      StrictStack(k, m, c);
    }
  }

  /** Strict parsing knows no comments, so there a success means that the whole value was read. */
  lemma {:induction false} StrictHasNoComments(k: Config, m: Mach, s: string)
    requires k.strict && Inv(k, m) && !CommentState(m.top.state)
    ensures !OpenComment(k, m, s)
    decreases |s|, Rank(m)
  {
    hide Step, Inv;
    if s != "" {
      StrictStep(k, m, s[0]);
      StepKeepsInv(k, m, s[0]);
      if Step(k, m, s[0]).Redo? {
        StrictHasNoComments(k, Step(k, m, s[0]).m, s);
      } else if Step(k, m, s[0]).Advance? && s[0] != NUL {
        StrictHasNoComments(k, Step(k, m, s[0]).m, s[1..]);
      }
    }
  }
}
