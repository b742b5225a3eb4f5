/**
 Scratch fields of a tokener that are written before they are read: two machines that differ in
 nothing else do the same on every text.
 */
module TokenerAlike {
  import opened Basics
  import opened OrderedMap
  import opened JsonValue
  import opened Decimal
  import opened TokenerMachine
  import opened TokenerCut
  import opened TokenerRun

  /** The states that read the text collected so far. */
  predicate ReadsText(s: State) {
    LiteralState(s) || TextState(s)
  }

  predicate ReadsPosition(s: State) {
    s == NullLit || s == Boolean || s == Inf || ReadsUnit(s)
  }

  predicate ReadsUnit(s: State) {
    s == EscapeUnicode || s == NeedEscape || s == NeedU
  }

  /** Equal up to scratch fields that are written before they are read. */
  predicate Alike(a: Mach, b: Mach) {
    && a.below == b.below && a.top == b.top && a.high == b.high && a.num == b.num && a.obj == b.obj
    && (ReadsText(a.top.state) ==> a.pb == b.pb)
    && (TextState(a.top.state) ==> a.quote == b.quote)
    && (ReadsPosition(a.top.state) ==> a.stPos == b.stPos)
    && (ReadsUnit(a.top.state) ==> a.ucs == b.ucs)
    && (a.top.state == NumberS ==> a.isDouble == b.isDouble)
  }

  predicate AlikeTurns(a: Turn, b: Turn) {
    match a
    case Redo(m) => b.Redo? && Alike(m, b.m)
    case Advance(m) => b.Advance? && Alike(m, b.m)
    case Halt(m, e) => b.Halt? && b.err == e && b.m.top == m.top && b.m.below == m.below && b.m.high == m.high
  }

  lemma AlikeTop(a: Mach, b: Mach)
    requires Alike(a, b)
    ensures a.top == b.top
  {
  }

  lemma InfAlike(k: Config, a: Mach, b: Mach, c: char)
    requires Alike(a, b) && a.top.state == Inf
    ensures AlikeTurns(StepInf(k, a, c), StepInf(k, b, c))
  {
  }

  lemma NullAlike(k: Config, a: Mach, b: Mach, c: char)
    requires Alike(a, b) && a.top.state == NullLit
    ensures AlikeTurns(StepNull(k, a, c), StepNull(k, b, c))
  {
    hide LiteralMatches;
  }

  lemma BooleanAlike(k: Config, a: Mach, b: Mach, c: char)
    requires Alike(a, b) && a.top.state == Boolean
    ensures AlikeTurns(StepBoolean(k, a, c), StepBoolean(k, b, c))
  {
    hide LiteralMatches;
  }

  lemma NumberAlike(k: Config, a: Mach, b: Mach, c: char)
    requires Alike(a, b) && a.top.state == NumberS
    ensures AlikeTurns(StepNumber(k, a, c), StepNumber(k, b, c))
  {
    hide NumberValue, TrimExponent, EndsNumber;
  }

  lemma EatWsAlike(k: Config, a: Mach, b: Mach, c: char)
    requires Alike(a, b) && a.top.state == EatWs && Inv(k, a)
    ensures AlikeTurns(StepEatWs(k, a, c), StepEatWs(k, b, c))
  {
  }

  lemma StartLiteralAlike(k: Config, a: Mach, b: Mach, c: char)
    requires Alike(a, b) && a.top.state == Start
    requires c == 'I' || c == 'i' || c == 'N' || c == 'n' || c == 'T' || c == 't' || c == 'F' || c == 'f'
    ensures AlikeTurns(StepStart(k, a, c), StepStart(k, b, c))
  {
    hide IsDigit;
  }

  lemma StartOtherAlike(k: Config, a: Mach, b: Mach, c: char)
    requires Alike(a, b) && a.top.state == Start
    requires c != 'I' && c != 'i' && c != 'N' && c != 'n' && c != 'T' && c != 't' && c != 'F' && c != 'f'
    ensures AlikeTurns(StepStart(k, a, c), StepStart(k, b, c))
  {
    hide IsDigit;
  }

  lemma StartAlike(k: Config, a: Mach, b: Mach, c: char)
    requires Alike(a, b) && a.top.state == Start
    ensures AlikeTurns(StepStart(k, a, c), StepStart(k, b, c))
  {
    hide StepStart, Alike, AlikeTurns;
    AlikeTop(a, b);
    if c == 'I' || c == 'i' || c == 'N' || c == 'n' || c == 'T' || c == 't' || c == 'F' || c == 'f' {
      StartLiteralAlike(k, a, b, c);
    } else {
      StartOtherAlike(k, a, b, c);
    }
  }

  lemma CommentAlike(k: Config, a: Mach, b: Mach, c: char)
    requires Alike(a, b) && (a.top.state == CommentStart || a.top.state == Comment || a.top.state == CommentEol ||
        a.top.state == CommentEnd)
    ensures AlikeTurns(StepComment(a, c), StepComment(b, c))
  {
    hide Inv;
  }

  lemma StringAlike(k: Config, a: Mach, b: Mach, c: char)
    requires Alike(a, b) && a.top.state == StringS
    ensures AlikeTurns(StepString(a, c), StepString(b, c))
  {
  }

  lemma FieldAlike(k: Config, a: Mach, b: Mach, c: char)
    requires Alike(a, b) && a.top.state == ObjectField
    ensures AlikeTurns(StepField(a, c), StepField(b, c))
  {
    hide CString;
  }

  lemma EscapeAlike(k: Config, a: Mach, b: Mach, c: char)
    requires Alike(a, b) && a.top.state == StringEscape && Inv(k, a)
    ensures AlikeTurns(StepEscape(a, c), StepEscape(b, c))
  {
    hide SimpleEscape;
  }

  lemma UnicodeAlike(k: Config, a: Mach, b: Mach, c: char)
    requires Alike(a, b) && a.top.state == EscapeUnicode && Inv(k, a)
    ensures AlikeTurns(StepUnicode(a, c), StepUnicode(b, c))
  {
    hide Utf8Bytes, IsHighSurrogate, IsLowSurrogate, DecodePair, Pow16, HexValue;
  }

  lemma NeedEscapeAlike(k: Config, a: Mach, b: Mach, c: char)
    requires Alike(a, b) && a.top.state == NeedEscape
    ensures AlikeTurns(StepNeedEscape(a, c), StepNeedEscape(b, c))
  {
  }

  lemma NeedUAlike(k: Config, a: Mach, b: Mach, c: char)
    requires Alike(a, b) && a.top.state == NeedU
    ensures AlikeTurns(StepNeedU(a, c), StepNeedU(b, c))
  {
  }

  lemma FinishAlike(k: Config, a: Mach, b: Mach, c: char)
    requires Alike(a, b) && a.top.state == Finish
    ensures AlikeTurns(StepFinish(a), StepFinish(b))
  {
  }

  lemma ArrayAlike(k: Config, a: Mach, b: Mach, c: char)
    requires Alike(a, b) && (a.top.state == Array || a.top.state == ArrayAfterSep)
    ensures AlikeTurns(StepArray(k, a, c), StepArray(k, b, c))
  {
  }

  lemma ArrayAddAlike(k: Config, a: Mach, b: Mach, c: char)
    requires Alike(a, b) && a.top.state == ArrayAdd
    ensures AlikeTurns(StepArrayAdd(a), StepArrayAdd(b))
  {
  }

  lemma ObjectValueAlike(k: Config, a: Mach, b: Mach, c: char)
    requires Alike(a, b) && a.top.state == ObjectValue
    ensures AlikeTurns(StepObjectValue(k, a), StepObjectValue(k, b))
  {
  }

  lemma ObjectValueAddAlike(k: Config, a: Mach, b: Mach, c: char)
    requires Alike(a, b) && a.top.state == ObjectValueAdd
    ensures AlikeTurns(StepObjectValueAdd(a), StepObjectValueAdd(b))
  {
  }

  lemma ArraySepAlike(k: Config, a: Mach, b: Mach, c: char)
    requires Alike(a, b) && a.top.state == ArraySep
    ensures AlikeTurns(StepArraySep(a, c), StepArraySep(b, c))
  {
  }

  lemma FieldStartAlike(k: Config, a: Mach, b: Mach, c: char)
    requires Alike(a, b) && (a.top.state == FieldStart || a.top.state == FieldStartAfterSep)
    ensures AlikeTurns(StepFieldStart(k, a, c), StepFieldStart(k, b, c))
  {
  }

  lemma FieldEndAlike(k: Config, a: Mach, b: Mach, c: char)
    requires Alike(a, b) && a.top.state == FieldEnd
    ensures AlikeTurns(StepFieldEnd(a, c), StepFieldEnd(b, c))
  {
  }

  lemma ObjectSepAlike(k: Config, a: Mach, b: Mach, c: char)
    requires Alike(a, b) && a.top.state == ObjectSep
    ensures AlikeTurns(StepObjectSep(a, c), StepObjectSep(b, c))
  {
  }

  lemma LiteralStepAlike(k: Config, a: Mach, b: Mach, c: char)
    requires Alike(a, b)
    requires a.top.state == CommentStart || a.top.state == Comment || a.top.state == CommentEol ||
        a.top.state == CommentEnd || LiteralState(a.top.state)
    ensures AlikeTurns(Step(k, a, c), Step(k, b, c))
  {
    hide Step, Alike, AlikeTurns, StepBoolean, StepComment, StepInf, StepNull, StepNumber;
    AlikeTop(a, b);
    LiteralTurn(k, a, c);
    LiteralTurn(k, b, c);
    match a.top.state
    case Inf => InfAlike(k, a, b, c);
    case NullLit => NullAlike(k, a, b, c);
    case Boolean => BooleanAlike(k, a, b, c);
    case NumberS => NumberAlike(k, a, b, c);
    case CommentStart => CommentAlike(k, a, b, c);
    case Comment => CommentAlike(k, a, b, c);
    case CommentEol => CommentAlike(k, a, b, c);
    case CommentEnd => CommentAlike(k, a, b, c);
  }

  lemma TextStepAlike(k: Config, a: Mach, b: Mach, c: char)
    requires Alike(a, b) && Inv(k, a)
    requires TextState(a.top.state)
    ensures AlikeTurns(Step(k, a, c), Step(k, b, c))
  {
    hide Step, Alike, Inv, AlikeTurns, StepEscape, StepField, StepNeedEscape, StepNeedU, StepString, StepUnicode;
    AlikeTop(a, b);
    TextTurn(k, a, c);
    TextTurn(k, b, c);
    match a.top.state
    case StringS => StringAlike(k, a, b, c);
    case ObjectField => FieldAlike(k, a, b, c);
    case StringEscape => EscapeAlike(k, a, b, c);
    case EscapeUnicode => UnicodeAlike(k, a, b, c);
    case NeedEscape => NeedEscapeAlike(k, a, b, c);
    case NeedU => NeedUAlike(k, a, b, c);
  }

  lemma StackStepAlike(k: Config, a: Mach, b: Mach, c: char)
    requires Alike(a, b)
    requires StackState(a.top.state)
    ensures AlikeTurns(Step(k, a, c), Step(k, b, c))
  {
    hide Step, Alike, AlikeTurns, StepArray, StepArrayAdd, StepFinish, StepObjectValue, StepObjectValueAdd;
    AlikeTop(a, b);
    StackTurn(k, a, c);
    StackTurn(k, b, c);
    match a.top.state
    case Finish => FinishAlike(k, a, b, c);
    case Array => ArrayAlike(k, a, b, c);
    case ArrayAfterSep => ArrayAlike(k, a, b, c);
    case ArrayAdd => ArrayAddAlike(k, a, b, c);
    case ObjectValue => ObjectValueAlike(k, a, b, c);
    case ObjectValueAdd => ObjectValueAddAlike(k, a, b, c);
  }

  lemma PunctuationStepAlike(k: Config, a: Mach, b: Mach, c: char)
    requires Alike(a, b)
    requires !StackState(a.top.state) && !LiteralState(a.top.state) && !BlankState(a.top.state) &&
        !TextState(a.top.state)
    ensures AlikeTurns(Step(k, a, c), Step(k, b, c))
  {
    hide Step, Alike, AlikeTurns, StepArraySep, StepFieldEnd, StepFieldStart, StepObjectSep;
    AlikeTop(a, b);
    StackTurn(k, a, c);
    StackTurn(k, b, c);
    match a.top.state
    case ArraySep => ArraySepAlike(k, a, b, c);
    case FieldStart => FieldStartAlike(k, a, b, c);
    case FieldStartAfterSep => FieldStartAlike(k, a, b, c);
    case FieldEnd => FieldEndAlike(k, a, b, c);
    case ObjectSep => ObjectSepAlike(k, a, b, c);
  }

  /** A turn does the same to two machines that are alike. */
  lemma StepAlike(k: Config, a: Mach, b: Mach, c: char)
    requires Alike(a, b) && Inv(k, a)
    ensures AlikeTurns(Step(k, a, c), Step(k, b, c))
  {
    hide Step, Alike, Inv, AlikeTurns, StepStart, StepEatWs;
    AlikeTop(a, b);
    if a.top.state == EatWs {
      EatWsTurn(k, a, c);
      EatWsTurn(k, b, c);
      EatWsAlike(k, a, b, c);
    } else if a.top.state == Start {
      StartTurn(k, a, c);
      StartTurn(k, b, c);
      StartAlike(k, a, b, c);
    } else if TextState(a.top.state) {
      TextStepAlike(k, a, b, c);
    } else if BlankState(a.top.state) || LiteralState(a.top.state) {
      LiteralStepAlike(k, a, b, c);
    } else if StackState(a.top.state) {
      StackStepAlike(k, a, b, c);
    } else {
      PunctuationStepAlike(k, a, b, c);
    }
  }

  // ------------------------------------------------------------ whole calls

  predicate AlikeOutcomes(a: Outcome, b: Outcome) {
    match a
    case Ok(v, after, rest) => b.Ok? && b.value == v && b.rest == rest && Alike(after, b.after)
    case Continue(m) => b.Continue? && Alike(m, b.at)
    case Fail(e, rest) => b == Fail(e, rest)
  }

  lemma OutAlike(k: Config, a: Mach, b: Mach, c: char, err: Option<Error>, rest: string)
    requires a.top == b.top && a.below == b.below && a.high == b.high
    ensures AlikeOutcomes(Out(k, a, c, err, rest), Out(k, b, c, err, rest))
  {
  }

  lemma AtEndAlike(a: Mach, b: Mach)
    requires Alike(a, b)
    ensures AlikeOutcomes(AtEnd(a), AtEnd(b))
  {
  }

  lemma {:induction false} CallAlike(k: Config, a: Mach, b: Mach, s: string)
    requires Alike(a, b) && Inv(k, a)
    ensures AlikeOutcomes(Call(k, a, s), Call(k, b, s))
    decreases |s|, Rank(a)
  {
    hide Step, Alike, Inv, Out, AtEnd, AlikeOutcomes;
    if s == "" {
      AtEndAlike(a, b);
    } else {
      StepAlike(k, a, b, s[0]);
      StepKeepsInv(k, a, s[0]);
      match Step(k, a, s[0]) {
        case Redo(m) => CallAlike(k, m, Step(k, b, s[0]).m, s);
        case Advance(m) =>
          if s[0] == NUL {
            AlikeParts(m, Step(k, b, s[0]).m);
            OutAlike(k, m, Step(k, b, s[0]).m, NUL, None, s[1..]);
          } else {
            CallAlike(k, m, Step(k, b, s[0]).m, s[1..]);
          }
        case Halt(m, e) => OutAlike(k, m, Step(k, b, s[0]).m, s[0], e, s);
      }
    }
  }

  lemma AlikeParts(a: Mach, b: Mach)
    requires Alike(a, b)
    ensures a.top == b.top && a.below == b.below && a.high == b.high
  {
  }

  /** On every text, a tokener that is like a new one gives what a new one gives. */
  lemma LikeNewParses(k: Config, m: Mach, s: string)
    requires k.maxDepth > 0 && Alike(m, FRESH)
    ensures AlikeOutcomes(Parse(k, m, s), Parse(k, FRESH, s))
  {
    hide Call, AlikeOutcomes;
    CallAlike(k, m, FRESH, s);
  }
}
