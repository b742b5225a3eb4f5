/**
 What an error says: where the parse stopped, and what was expected there.
 */
module TokenerErrors {
  import opened Basics
  import opened JsonValue
  import opened TokenerMachine
  import opened TokenerCut
  import opened TokenerRun
  import opened TokenerReset

  /** The error for a character that does not fit the state, after the descriptions of the errors. */
  function Missing(s: State, c: char): Error {
    match s
    case NullLit => ParseNull
    case Boolean => ParseBoolean
    case NumberS => ParseNumber
    case ArraySep => ParseArray
    case FieldStart => ParseObjectKeyName
    case FieldStartAfterSep => if c == '}' then ParseUnexpected else ParseObjectKeyName
    case FieldEnd => ParseObjectKeySep
    case ObjectSep => ParseObjectValueSep
    case StringEscape => ParseString
    case EscapeUnicode => ParseString
    case CommentStart => ParseComment
    case Array => Depth
    case ArrayAfterSep => if c == ']' then ParseUnexpected else Depth
    case ObjectValue => Depth
    case _ => ParseUnexpected
  }

  /** Where a call stops: the machine, and the text from the character it looked at last. */
  function StopsIn(k: Config, m: Mach, s: string): (Mach, string)
    decreases |s|, Rank(m)
  {
    if s == "" then (m, s)
    else
      match Step(k, m, s[0])
      case Redo(m') => StopsIn(k, m', s)
      case Advance(m') => if s[0] == NUL then (m, s) else StopsIn(k, m', s[1..])
      case Halt(_, _) => (m, s)
  }

  lemma TextHalts(k: Config, m: Mach, c: char)
    requires Inv(k, m) && TextState(m.top.state) && Step(k, m, c).Halt?
    ensures var t := Step(k, m, c);
            t.err == Some(Missing(m.top.state, c)) && t.m.top.state != Finish && t.m.top.saved == m.top.saved
  {
    hide Step, SimpleEscape, EscapeDone, Pow16, HexValue, CString;
    TextTurn(k, m, c);
  }

  lemma NumberHalts(k: Config, m: Mach, c: char)
    requires m.top.state == NumberS && Step(k, m, c).Halt?
    ensures var t := Step(k, m, c);
            t.err == Some(ParseNumber) && t.m.top.state != Finish && t.m.top.saved == m.top.saved
  {
    hide Step, NumberValue, TrimExponent, EndsNumber, NumberChar;
    LiteralTurn(k, m, c);
  }

  lemma LiteralHalts(k: Config, m: Mach, c: char)
    requires LiteralState(m.top.state) && Step(k, m, c).Halt?
    ensures var t := Step(k, m, c);
            t.err == Some(Missing(m.top.state, c)) && t.m.top.state != Finish && t.m.top.saved == m.top.saved
  {
    hide Step, LiteralMatches, StepNumber;
    LiteralTurn(k, m, c);
    if m.top.state == NumberS {
      NumberHalts(k, m, c);
    }
  }

  lemma BlankHalts(k: Config, m: Mach, c: char)
    requires Inv(k, m) && BlankState(m.top.state) && Step(k, m, c).Halt?
    ensures var t := Step(k, m, c);
            t.err == Some(Missing(m.top.state, c)) && t.m.top.state != Finish && t.m.top.saved == m.top.saved
  {
    hide Step;
    LiteralTurn(k, m, c);
    if m.top.state == Start {
      StartTurn(k, m, c);
    } else if m.top.state == EatWs {
      EatWsTurn(k, m, c);
    }
  }

  lemma StackHalts(k: Config, m: Mach, c: char)
    requires Inv(k, m) && Step(k, m, c).Halt?
    requires !LiteralState(m.top.state) && !BlankState(m.top.state) && !TextState(m.top.state)
    ensures var t := Step(k, m, c);
            if m.top.state == Finish then t.err == None && t.m == m && m.below == []
            else t.err == Some(Missing(m.top.state, c)) && t.m.top.state != Finish && t.m.top.saved == m.top.saved
  {
    hide Step;
    StepKeepsInv(k, m, c);
    StackTurn(k, m, c);
  }

  /** A turn that stops says what is missing; only the end of the whole value is no error. */
  lemma HaltTells(k: Config, m: Mach, c: char)
    requires Inv(k, m) && Step(k, m, c).Halt?
    ensures var t := Step(k, m, c);
            if m.top.state == Finish then t.err == None && t.m == m && m.below == []
            else t.err == Some(Missing(m.top.state, c)) && t.m.top.state != Finish && t.m.top.saved == m.top.saved
  {
    hide Step, Inv, Missing;
    if LiteralState(m.top.state) {
      LiteralHalts(k, m, c);
    } else if BlankState(m.top.state) {
      BlankHalts(k, m, c);
    } else if TextState(m.top.state) {
      TextHalts(k, m, c);
    } else {
      StackHalts(k, m, c);
    }
  }

  /** What a failed call reports: what was missing where it stopped, and that text as unread. */
  predicate Tells(k: Config, u: Mach, t: string, o: Outcome) {
    o.Fail? ==>
      && t != ""
      && o.err == (if t[0] == NUL && u.top.saved != Finish then ParseEof else Missing(u.top.state, t[0]))
      && o.rest == if Step(k, u, t[0]).Advance? then t[1..] else t
  }

  lemma StopTells(k: Config, m: Mach, s: string)
    requires Ready(k, m) && s != "" && (Step(k, m, s[0]).Halt? || (s[0] == NUL && Step(k, m, NUL).Advance?))
    ensures Tells(k, m, s, Call(k, m, s))
  {
    hide Step, Inv, NotEnding, Missing;
    if Step(k, m, s[0]).Halt? {
      HaltTells(k, m, s[0]);
      if m.top.state == Finish {
        FinishMissing(s[0]);
      }
    } else {
      NulGoesOn(k, m);
    }
  }

  lemma FinishMissing(c: char)
    ensures Missing(Finish, c) == ParseUnexpected
  {
  }

  lemma NulPlaces(k: Config, m: Mach)
    requires Inv(k, m) && Step(k, m, NUL).Advance?
    ensures LiteralState(m.top.state) || CommentState(m.top.state) || m.top.state == StringS ||
            m.top.state == ObjectField
  {
    hide Step, CString, StepNumber, StepNull, StepBoolean, StepInf;
    if TextState(m.top.state) {
      TextTurn(k, m, NUL);
    } else if m.top.state == Start {
      StartTurn(k, m, NUL);
    } else if m.top.state == EatWs {
      EatWsTurn(k, m, NUL);
    } else {
      StackTurn(k, m, NUL);
    }
  }

  /** Reading the NUL does not end a value that was not ended before. */
  lemma NulGoesOn(k: Config, m: Mach)
    requires Ready(k, m) && Step(k, m, NUL).Advance?
    ensures var n := Step(k, m, NUL).m; n.top.state != Finish && n.top.saved != Finish ==> m.top.saved != Finish
  {
    hide Step, Inv;
    NulPlaces(k, m);
    if CommentState(m.top.state) {
      LiteralTurn(k, m, NUL);
    }
  }

  /**
   The error of a failed call: the end of the data when it stopped at the NUL inside a value, and else
   the part that the character it stopped at is not.
   */
  lemma {:induction false} FailTells(k: Config, m: Mach, s: string)
    requires Ready(k, m)
    ensures var u := StopsIn(k, m, s); Tells(k, u.0, u.1, Call(k, m, s))
    decreases |s|, Rank(m)
  {
    hide Step, Ready, Tells;
    if s == "" {
      EmptyTells(k, m);
    } else {
      if !Step(k, m, s[0]).Halt? {
        StepKeepsReady(k, m, s[0]);
      }
      match Step(k, m, s[0]) {
        case Redo(m') => FailTells(k, m', s);
        case Advance(m') =>
          if s[0] == NUL {
            StopTells(k, m, s);
          } else {
            FailTells(k, m', s[1..]);
          }
        case Halt(_, _) => StopTells(k, m, s);
      }
    }
  }

  lemma EmptyTells(k: Config, m: Mach)
    ensures Tells(k, m, "", Call(k, m, ""))
  {
    hide Step;
  }
}
