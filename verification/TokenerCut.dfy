/**
 Feeding a text in pieces. A call that stops inside a number keeps the text read so far
 but not the locals of the number case; the next call rebuilds them (Regenerate). Apart
 from the spots where that makes a difference a cut is invisible, and there it shows.
 */
module TokenerCut {
  import opened Basics
  import opened JsonValue
  import opened TokenerMachine

  // ------------------------------------------------------------ locals of the number case

  predicate IsExponentMark(c: char) {
    c == 'e' || c == 'E'
  }

  predicate HasExponent(pb: string) {
    exists i :: 0 <= i < |pb| && IsExponentMark(pb[i])
  }

  predicate OneExponent(pb: string) {
    forall i, j :: 0 <= i < j < |pb| ==> !(IsExponentMark(pb[i]) && IsExponentMark(pb[j]))
  }

  /** May a sign follow, after reading `pb` in one go? */
  predicate SignAfter(pb: string) {
    pb != "" && (IsExponentMark(pb[|pb| - 1]) || pb[|pb| - 1] == '.')
  }

  /** The locals after reading `pb` in one go. */
  function Uncut(pb: string): NumberLocals {
    if pb == "" then NUMBER_START
    else NumberLocals(HasExponent(pb), SignAfter(pb), SignAfter(pb), |pb|)
  }

  predicate SameSigns(a: NumberLocals, b: NumberLocals) {
    a.negOk == b.negOk && a.posOk == b.posOk
  }

  /** The locals some way of cutting can leave behind. */
  predicate Possible(pb: string, n: NumberLocals) {
    && n.isExponent == HasExponent(pb)
    && n.caseLen <= |pb|
    && (SameSigns(n, Uncut(pb)) || SameSigns(n, Regenerate(pb)))
  }

  /** At most one exponent mark, and no point after it. */
  predicate NumberText(m: Mach) {
    m.top.state == NumberS ==>
      OneExponent(m.pb) && (HasExponent(m.pb) ==> m.isDouble && m.pb[|m.pb| - 1] != '.')
  }

  predicate NumberOk(m: Mach) {
    NumberText(m) && (m.top.state == NumberS ==> Possible(m.pb, m.num))
  }

  /**
   The next character of an unfinished number text is treated differently after a cut: a sign
   that a fresh start would allow or forbid, or the I of Infinity behind a negative number.
   */
  predicate CutSensitive(pb: string, c: char) {
    && pb != ""
    && ((!HasExponent(pb) && c == '-' && pb[|pb| - 1] != '.')
        || (!HasExponent(pb) && c == '+' && pb[|pb| - 1] == '.')
        || (pb[0] == '-' && |pb| > 1 && (c == 'i' || c == 'I')))
  }

  lemma RegenerateFacts(pb: string)
    requires OneExponent(pb)
    ensures Regenerate(pb).isExponent == HasExponent(pb) && Regenerate(pb).caseLen == 0
    ensures HasExponent(pb) ==> SameSigns(Regenerate(pb), Uncut(pb)) || pb[|pb| - 1] == '.'
    ensures HasExponent(pb) && IsExponentMark(pb[|pb| - 1]) ==> Regenerate(pb).negOk && Regenerate(pb).posOk
    ensures HasExponent(pb) && !IsExponentMark(pb[|pb| - 1]) ==> !Regenerate(pb).negOk && !Regenerate(pb).posOk
    ensures !HasExponent(pb) ==> Regenerate(pb) == NUMBER_START
  {
    var e := if IndexOf(pb, 'e') < |pb| then IndexOf(pb, 'e') else IndexOf(pb, 'E');
    if e < |pb| {
      assert IsExponentMark(pb[e]);
    }
    if HasExponent(pb) {
      var i :| 0 <= i < |pb| && IsExponentMark(pb[i]);
      assert i == e;
    }
  }

  lemma NumberNextOk(m: Mach, c: char)
    requires m.top.state == NumberS && NumberOk(m) && NumberChar(m, c)
    ensures NumberOk(NumberNext(m, c))
    ensures NumberNext(m, c).num.(caseLen := 0) == Uncut(m.pb + [c]).(caseLen := 0)
  {
    var pb := m.pb + [c];
    assert pb[|pb| - 1] == c;
    if HasExponent(m.pb) {
      var i :| 0 <= i < |m.pb| && IsExponentMark(m.pb[i]);
      assert IsExponentMark(pb[i]);
    }
    if IsExponentMark(c) {
      assert IsExponentMark(pb[|pb| - 1]);
    }
    assert HasExponent(pb) == (HasExponent(m.pb) || IsExponentMark(c));
  }

  // ------------------------------------------------------------ the spots where a cut shows

  /** The I of Infinity behind a negative number, too late unless the call began just here. */
  predicate LateInfinity(m: Mach, c: char) {
    m.pb != "" && m.pb[0] == '-' && m.num.caseLen > 1 && (c == 'i' || c == 'I')
  }

  /** Strict parsing of a whole text ends in the same error, whichever way it reads an i behind a number. */
  predicate Harmless(k: Config, m: Mach, c: char) {
    k.strict && !k.allowTrailing && c == 'i' && m.below == [] && NumberValue(k, m.pb, m.isDouble).Some?
  }

  /** A cut in front of `c` makes a difference to the call. */
  predicate Spot(k: Config, m: Mach, c: char) {
    && m.top.state == NumberS
    && (NumberChar(m, c) != NumberChar(Resume(m), c) || (LateInfinity(m, c) && !Harmless(k, m, c)))
  }

  /** In terms of the text alone. */
  lemma SpotIsSensitive(k: Config, m: Mach, c: char)
    requires NumberOk(m) && Spot(k, m, c)
    ensures CutSensitive(m.pb, c)
  {
    RegenerateFacts(m.pb);
  }

  lemma NoSpot(k: Config, u: Mach, c: char)
    requires NumberOk(u) && (u.top.state == NumberS ==> !CutSensitive(u.pb, c))
    ensures !Spot(k, u, c)
  {
    hide CutSensitive;
    if Spot(k, u, c) {
      SpotIsSensitive(k, u, c);
    }
  }

  /** And exactly so for a number read in one go. */
  lemma SpotIsSensitiveExactly(k: Config, m: Mach, c: char)
    requires m.top.state == NumberS && NumberText(m) && m.num == Uncut(m.pb)
    ensures Spot(k, m, c) <==> CutSensitive(m.pb, c) && !(m.pb[0] == '-' && Harmless(k, m, c))
  {
    hide NumberValue;
    RegenerateFacts(m.pb);
    if m.pb != "" && !HasExponent(m.pb) {
      assert !IsExponentMark(m.pb[|m.pb| - 1]);
    }
  }

  // ------------------------------------------------------------ runs that differ in the locals only

  predicate SameButLocals(u: Mach, d: Mach) {
    u == d.(num := u.num)
  }

  predicate SameTurn(a: Turn, b: Turn) {
    && a.Redo? == b.Redo? && a.Advance? == b.Advance?
    && (a.Halt? ==> a.err == b.err && a.m == b.m)
    && SameButLocals(a.m, b.m)
  }

  /** `d` has been cut more often than `u`. */
  predicate Related(k: Config, u: Mach, d: Mach) {
    && Inv(k, u) && Inv(k, d) && NumberOk(u) && NumberOk(d) && SameButLocals(u, d)
    && (u.top.state == NumberS ==>
          && d.num.caseLen <= u.num.caseLen
          && (SameSigns(d.num, u.num) || SameSigns(d.num, Regenerate(d.pb))))
  }

  /** Away from the spots the same character is accepted or refused whatever the cuts. */
  lemma SameAcceptance(k: Config, u: Mach, d: Mach, c: char)
    requires Related(k, u, d) && u.top.state == NumberS && !Spot(k, u, c)
    ensures NumberChar(u, c) == NumberChar(d, c)
    ensures !LateInfinity(u, c) && u.pb != "" && u.pb[0] == '-' && (c == 'i' || c == 'I') ==>
              u.num.caseLen <= 1 && d.num.caseLen <= 1
  {
    hide Inv;
    RegenerateFacts(u.pb);
  }

  lemma NumberTurn(k: Config, m: Mach, c: char)
    requires m.top.state == NumberS
    ensures Step(k, m, c) == StepNumber(k, m, c)
  {
    hide StepNumber;
  }

  lemma SameStep(k: Config, u: Mach, d: Mach, c: char)
    requires Related(k, u, d) && !Spot(k, u, c)
    requires u.top.state == NumberS ==> !LateInfinity(u, c)
    ensures SameTurn(Step(k, u, c), Step(k, d, c))
    ensures !Step(k, u, c).Halt? ==> Related(k, Step(k, u, c).m, Step(k, d, c).m)
  {
    hide Step, NumberEnd, LevelsWait, Regenerate, Spot, LateInfinity;
    StepKeepsInv(k, u, c);
    StepKeepsInv(k, d, c);
    if u.top.state == NumberS {
      NumberTurn(k, u, c);
      NumberTurn(k, d, c);
      SameAcceptance(k, u, d, c);
      if NumberChar(u, c) {
        NumberNextOk(u, c);
        NumberNextOk(d, c);
      } else {
        SameEnd(k, u, d, c);
      }
    }
  }

  lemma SameEnd(k: Config, u: Mach, d: Mach, c: char)
    requires Inv(k, u) && Inv(k, d) && SameButLocals(u, d) && u.top.state == NumberS
    requires u.pb != "" && u.pb[0] == '-' && (c == 'i' || c == 'I') ==> u.num.caseLen <= 1 && d.num.caseLen <= 1
    ensures NumberEnd(k, u, c) == NumberEnd(k, d, c)
    ensures !NumberEnd(k, u, c).Halt? ==> NumberEnd(k, u, c).m.top.state != NumberS
  {
    hide NumberValue, TrimExponent, EndsNumber;
  }

  lemma EndLeavesNumber(k: Config, m: Mach, c: char)
    ensures !NumberEnd(k, m, c).Halt? ==> NumberEnd(k, m, c).m.top.state != NumberS && NumberEnd(k, m, c).Redo?
  {
    hide NumberValue, TrimExponent, EndsNumber;
  }

  lemma NumberOkNext(k: Config, m: Mach, c: char)
    requires Inv(k, m) && NumberOk(m) && !Step(k, m, c).Halt?
    ensures NumberOk(Step(k, m, c).m)
  {
    hide Step, NumberEnd, LevelsWait, Regenerate;
    StepKeepsInv(k, m, c);
    if m.top.state == NumberS {
      NumberTurn(k, m, c);
      if NumberChar(m, c) {
        NumberNextOk(m, c);
      } else {
        EndLeavesNumber(k, m, c);
      }
    }
  }

  /** The run from `u` over `s` meets no spot. */
  predicate Quiet(k: Config, u: Mach, s: string)
    decreases |s|, Rank(u)
  {
    s == "" ||
    (!Spot(k, u, s[0]) &&
     match Step(k, u, s[0])
     case Redo(m) => Quiet(k, m, s)
     case Advance(m) => s[0] == NUL || Quiet(k, m, s[1..])
     case Halt(_, _) => true)
  }

  predicate SameOutcome(k: Config, a: Outcome, b: Outcome) {
    && Resumed(a) == Resumed(b)
    && (a.Continue? ==> b.Continue? && Related(k, a.at, b.at))
  }

  /** The harmless i ends the call in the same error after any cuts. */
  lemma HarmlessFails(k: Config, m: Mach, s: string)
    requires m.top.state == NumberS && m.pb != "" && m.pb[0] == '-' && s != "" && Harmless(k, m, s[0])
    ensures Call(k, m, s) == Fail(ParseUnexpected, s)
  {
    hide Step, NumberValue;
    NumberTurn(k, m, 'i');
    var n := m.(num := NUMBER_START);
    if m.num.caseLen <= 1 {
      InfTurn(k, Goto(n, Inf).(stPos := 0), 'i');
    } else {
      var v := NumberValue(k, m.pb, m.isDouble).value;
      AtTopEnds(k, Finished(n, v), s);
    }
  }

  lemma InfTurn(k: Config, m: Mach, c: char)
    requires m.top.state == Inf
    ensures Step(k, m, c) == StepInf(k, m, c)
  {
    hide StepInf;
  }

  /** A value that is complete at depth 0, before something that is no white space and no comment. */
  lemma AtTopEnds(k: Config, v: Mach, s: string)
    requires v.top.state == EatWs && v.top.saved == Finish && v.below == []
    requires s != "" && s[0] != NUL && !IsWs(s[0]) && s[0] != '/'
    ensures Call(k, v, s) == if k.strict && !k.allowTrailing then Fail(ParseUnexpected, s) else Ok(v.top.current,
        ResetLevels(v), s)
  {
    hide Step;
    EatWsTurn(k, v, s[0]);
    FinishTurn(k, Goto(v, Finish), s[0]);
    assert ResetLevels(Goto(v, Finish)) == ResetLevels(v);
  }

  lemma EatWsTurn(k: Config, m: Mach, c: char)
    requires m.top.state == EatWs
    ensures Step(k, m, c) == StepEatWs(k, m, c)
  {
    hide StepEatWs;
  }

  lemma FinishTurn(k: Config, m: Mach, c: char)
    requires m.top.state == Finish
    ensures Step(k, m, c) == StepFinish(m)
  {
    hide StepFinish;
  }

  lemma {:induction false} SameCall(k: Config, u: Mach, d: Mach, s: string)
    requires Related(k, u, d) && Quiet(k, u, s)
    ensures SameOutcome(k, Call(k, u, s), Call(k, d, s))
    decreases |s|, Rank(u)
  {
    hide Step, Spot, Harmless;
    if s == "" {
    } else if u.top.state == NumberS && LateInfinity(u, s[0]) {
      LateIsHarmless(k, u, s[0]);
      HarmlessFails(k, u, s);
      HarmlessFails(k, d, s);
    } else {
      SameStep(k, u, d, s[0]);
      match Step(k, u, s[0]) {
        case Redo(m) => SameCall(k, m, Step(k, d, s[0]).m, s);
        case Advance(m) =>
          if s[0] != NUL {
            SameCall(k, m, Step(k, d, s[0]).m, s[1..]);
          }
        case Halt(_, _) =>
      }
    }
  }

  lemma LateIsHarmless(k: Config, u: Mach, c: char)
    requires u.top.state == NumberS && LateInfinity(u, c) && !Spot(k, u, c)
    ensures Harmless(k, u, c) && u.pb != "" && u.pb[0] == '-'
    ensures forall d: Mach :: SameButLocals(u, d) ==> Harmless(k, d, c)
  {
  }

  /** A call that asks for more text has only read its own part of a longer text. */
  lemma {:induction false} CallAppend(k: Config, u: Mach, s: string, t: string)
    requires Call(k, u, s).Continue?
    ensures Call(k, u, s + t) == Call(k, Call(k, u, s).at, t)
    ensures Quiet(k, u, s + t) ==> Quiet(k, u, s) && Quiet(k, Call(k, u, s).at, t)
    decreases |s|, Rank(u)
  {
    hide Step, Spot;
    if s == "" {
      assert s + t == t;
    } else {
      assert (s + t)[0] == s[0] && (s + t)[1..] == s[1..] + t;
      match Step(k, u, s[0]) {
        case Redo(m) => CallAppend(k, m, s, t);
        case Advance(m) =>
          if s[0] != NUL {
            CallAppend(k, m, s[1..], t);
          }
        case Halt(_, _) =>
      }
    }
  }

  lemma {:induction false} QuietPrefix(k: Config, u: Mach, s: string, t: string)
    requires Quiet(k, u, s + t)
    ensures Quiet(k, u, s)
    decreases |s|, Rank(u)
  {
    hide Step, Spot;
    if s != "" {
      assert (s + t)[0] == s[0] && (s + t)[1..] == s[1..] + t;
      match Step(k, u, s[0]) {
        case Redo(m) => QuietPrefix(k, m, s, t);
        case Advance(m) =>
          if s[0] != NUL {
            QuietPrefix(k, m, s[1..], t);
          }
        case Halt(_, _) =>
      }
    }
  }

  // ------------------------------------------------------------ pieces

  function Join(pieces: seq<string>): string {
    if pieces == [] then "" else pieces[0] + Join(pieces[1..])
  }

  /** Successive calls on the pieces, as long as the tokener asks for more. */
  function ParsePieces(k: Config, m: Mach, pieces: seq<string>): Outcome
    requires pieces != []
    decreases |pieces|
  {
    var o := Parse(k, m, pieces[0]);
    if |pieces| == 1 || !o.Continue? then o else ParsePieces(k, o.at, pieces[1..])
  }

  /** Every call but the last ends in json_tokener_continue. */
  predicate AllButLastContinue(k: Config, m: Mach, pieces: seq<string>)
    requires pieces != []
    decreases |pieces|
  {
    var o := Parse(k, m, pieces[0]);
    |pieces| == 1 || (o.Continue? && AllButLastContinue(k, o.at, pieces[1..]))
  }

  lemma ResumeRelated(k: Config, u: Mach, d: Mach)
    requires Related(k, u, d)
    ensures Related(k, u, Resume(d))
  {
    if d.top.state == NumberS {
      RegenerateFacts(d.pb);
    }
  }

  lemma {:induction false} PiecesFollow(k: Config, u: Mach, d: Mach, pieces: seq<string>)
    requires Related(k, u, d) && pieces != []
    requires Quiet(k, u, Join(pieces)) && AllButLastContinue(k, d, pieces)
    ensures SameOutcome(k, Call(k, u, Join(pieces)), ParsePieces(k, d, pieces))
    decreases |pieces|
  {
    var s, rest := pieces[0], Join(pieces[1..]);
    ResumeRelated(k, u, d);
    QuietPrefix(k, u, s, rest);
    SameCall(k, u, Resume(d), s);
    if |pieces| == 1 {
      assert s + rest == s;
    } else {
      CallAppend(k, u, s, rest);
      PiecesFollow(k, Call(k, u, s).at, Parse(k, d, s).at, pieces[1..]);
    }
  }

  /** What holds of a tokener that is new, was reset, or was left by a call asking for more. */
  predicate BetweenCalls(k: Config, m: Mach) {
    Inv(k, m) && NumberText(m)
  }

  lemma ResumedIsOk(k: Config, m: Mach)
    requires BetweenCalls(k, m)
    ensures Inv(k, Resume(m)) && NumberOk(Resume(m))
  {
    if m.top.state == NumberS {
      RegenerateFacts(m.pb);
    }
  }

  lemma ResumeTwice(k: Config, m: Mach)
    requires BetweenCalls(k, m)
    ensures Resume(Resume(m)) == Resume(m) && Related(k, Resume(m), Resume(m))
  {
    ResumedIsOk(k, m);
    if m.top.state == NumberS {
      RegenerateFacts(m.pb);
    }
  }

  /**
   Cutting does not matter: on a quiet text every way of cutting gives the value, the error and
   the unread rest that one call gives, or the same tokener to continue with.
   */
  lemma CuttingDoesNotMatter(k: Config, m: Mach, pieces: seq<string>)
    requires BetweenCalls(k, m) && pieces != []
    requires Quiet(k, Resume(m), Join(pieces)) && AllButLastContinue(k, m, pieces)
    ensures Resumed(ParsePieces(k, m, pieces)) == Resumed(Parse(k, m, Join(pieces)))
  {
    hide Quiet, Call, Inv, NumberText, Regenerate, Join;
    var r := Resume(m);
    ResumeTwice(k, m);
    PiecesFollow(k, r, r, pieces);
    assert ParsePieces(k, r, pieces) == ParsePieces(k, m, pieces);
  }
}
