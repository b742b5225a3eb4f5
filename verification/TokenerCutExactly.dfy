/**
 When cutting a text matters: all ways of cutting agree if and only if the run meets no spot. At a
 spot one of the two tokeners stops in front of the character, and the other reads it or fails in
 another way.
 */
module TokenerCutExactly {
  import opened Basics
  import opened OrderedMap
  import opened JsonValue
  import opened TokenerMachine
  import opened TokenerCut
  import opened TokenerRun

  /** A call never gives back more than it was given. */
  predicate RestWithin(o: Outcome, n: nat) {
    match o
    case Ok(_, _, rest) => |rest| <= n
    case Fail(_, rest) => |rest| <= n
    case Continue(_) => true
  }

  lemma {:induction false} RestShrinks(k: Config, m: Mach, s: string)
    ensures RestWithin(Call(k, m, s), |s|)
    decreases |s|, Rank(m)
  {
    hide Step;
    if s != "" {
      match Step(k, m, s[0]) {
        case Redo(m') => RestShrinks(k, m', s);
        case Advance(m') =>
          if s[0] != NUL {
            RestShrinks(k, m', s[1..]);
          }
        case Halt(_, _) =>
      }
    }
  }

  lemma ReadShrinks(k: Config, m: Mach, s: string)
    requires s != "" && s[0] != NUL && Step(k, m, s[0]).Advance?
    ensures RestWithin(Call(k, m, s), |s| - 1)
  {
    hide Step;
    RestShrinks(k, Step(k, m, s[0]).m, s[1..]);
  }

  /** The call ends in front of `s`; ParseUnexpected stands for something behind a whole strict text. */
  predicate StopsAt(k: Config, m: Mach, s: string, o: Outcome) {
    match o
    case Ok(_, _, rest) => rest == s
    case Fail(e, rest) =>
      && rest == s
      && (e == ParseUnexpected ==>
            k.strict && !k.allowTrailing && m.below == [] && NumberValue(k, m.pb, m.isDouble).Some?)
    case Continue(_) => false
  }

  /** A character that neither belongs to the number nor to Infinity. */
  lemma Refused(k: Config, m: Mach, s: string)
    requires Inv(k, m) && AllWait(m.below) && m.top.state == NumberS && s != "" && !NumberChar(m, s[0])
    requires s[0] == '-' || s[0] == '+' || ((s[0] == 'i' || s[0] == 'I') && (m.pb == "" || m.pb[0] != '-' ||
        m.num.caseLen > 1))
    ensures StopsAt(k, m, s, Call(k, m, s))
  {
    hide Step, Inv, AllWait, NumberValue, Finished;
    NumberTurn(k, m, s[0]);
    var pb := if m.isDouble && !k.strict then TrimExponent(m.pb) else m.pb;
    var v := NumberValue(k, pb, m.isDouble);
    if (m.below == [] || EndsNumber(s[0])) && v.Some? {
      var f := Finished(m.(num := NUMBER_START, pb := pb), v.value);
      StepKeepsInv(k, m, s[0]);
      FinishedIs(m.(num := NUMBER_START, pb := pb), v.value);
      if m.below == [] {
        AtTopEnds(k, f, s);
      } else {
        InsideEnds(k, f, s);
      }
    }
  }

  lemma FinishedIs(m: Mach, v: Json)
    ensures var f := Finished(m, v);
            && f.below == m.below && f.top.state == EatWs && f.top.saved == Finish
            && f.obj == m.obj && f.num == m.num
  {
  }

  /** A finished child in front of something that is no separator. */
  lemma InsideEnds(k: Config, f: Mach, s: string)
    requires Inv(k, f) && AllWait(f.below) && f.below != [] && f.top.state == EatWs && f.top.saved == Finish
    requires s != "" && (s[0] == 'i' || s[0] == 'I')
    ensures Call(k, f, s) == Fail(ParseArray, s) || Call(k, f, s) == Fail(ParseObjectValueSep, s)
  {
    hide Step, LevelFits;
    var w := f.below[|f.below| - 1];
    assert Waiting(w);
    EatWsTurn(k, f, s[0]);
    FinishTurn(k, Goto(f, Finish), s[0]);
    var p := f.(below := f.below[..|f.below| - 1], top := w, obj := f.top.current);
    assert Step(k, Goto(f, Finish), s[0]) == Redo(p);
    AddedEnds(k, p, s);
  }

  lemma AddedEnds(k: Config, p: Mach, s: string)
    requires p.top.state == ArrayAdd || p.top.state == ObjectValueAdd
    requires LevelFits(p.top.state, p.top) && s != "" && (s[0] == 'i' || s[0] == 'I')
    ensures Call(k, p, s) == Fail(ParseArray, s) || Call(k, p, s) == Fail(ParseObjectValueSep, s)
  {
    hide Step, Put, Call;
    StackTurn(k, p, s[0]);
    var e := Step(k, p, s[0]).m;
    Turned(k, p, s, e);
    SeparatorMissing(k, e, s);
  }

  lemma Turned(k: Config, m: Mach, s: string, m': Mach)
    requires s != "" && Step(k, m, s[0]) == Redo(m')
    ensures Call(k, m, s) == Call(k, m', s)
  {
    hide Step;
  }

  lemma SeparatorMissing(k: Config, e: Mach, s: string)
    requires e.top.state == EatWs && (e.top.saved == ArraySep || e.top.saved == ObjectSep)
    requires s != "" && (s[0] == 'i' || s[0] == 'I')
    ensures Call(k, e, s) == Fail(if e.top.saved == ArraySep then ParseArray else ParseObjectValueSep, s)
  {
    hide Step, Call;
    EatWsTurn(k, e, s[0]);
    Turned(k, e, s, Goto(e, e.top.saved));
    StackTurn(k, Goto(e, e.top.saved), s[0]);
    HaltsWith(k, Goto(e, e.top.saved), s);
  }

  lemma HaltsWith(k: Config, m: Mach, s: string)
    requires s != "" && s[0] != NUL && Step(k, m, s[0]).Halt? && Step(k, m, s[0]).err.Some?
    requires Step(k, m, s[0]).m.top.state != Finish
    ensures Call(k, m, s) == Fail(Step(k, m, s[0]).err.value, s)
  {
    hide Step;
  }

  /** In front of the letters of Infinity, right at the beginning of a call. */
  lemma InfinityTaken(k: Config, m: Mach, s: string)
    requires m.top.state == NumberS && s != "" && (s[0] == 'i' || s[0] == 'I') && !NumberChar(m, s[0])
    requires m.pb != "" && m.pb[0] == '-' && m.num.caseLen <= 1
    ensures if k.strict && s[0] == 'i' then Call(k, m, s) == Fail(ParseUnexpected, s)
            else RestWithin(Call(k, m, s), |s| - 1)
  {
    hide Step, NumberValue, TrimExponent;
    NumberTurn(k, m, s[0]);
    var i := Goto(m.(num := NUMBER_START), Inf).(stPos := 0);
    InfTurn(k, i, s[0]);
    if !(k.strict && s[0] == 'i') {
      ReadShrinks(k, i, s);
    }
  }

  lemma SignOf(k: Config, m: Mach, c: char)
    requires NumberOk(m) && m.top.state == NumberS && NumberChar(m, c) != NumberChar(Resume(m), c)
    ensures c == '-' || c == '+'
  {
    RegenerateFacts(m.pb);
  }

  lemma LetterIsNoNumber(m: Mach, c: char)
    requires c == 'i' || c == 'I'
    ensures !NumberChar(m, c)
  {
  }

  lemma TakenReads(k: Config, m: Mach, s: string)
    requires m.top.state == NumberS && s != "" && NumberChar(m, s[0])
    ensures RestWithin(Call(k, m, s), |s| - 1)
  {
    hide Step;
    NumberTurn(k, m, s[0]);
    ReadShrinks(k, m, s);
  }

  lemma StopDiffers(k: Config, m: Mach, s: string, a: Outcome, b: Outcome)
    requires s != "" && StopsAt(k, m, s, a) && RestWithin(b, |s| - 1)
    ensures Resumed(a) != Resumed(b)
  {
  }

  /** At a spot the tokener that was cut and the one that was not come to different ends. */
  lemma SpotShows(k: Config, m: Mach, s: string)
    requires Inv(k, m) && NumberOk(m) && AllWait(m.below) && s != "" && Spot(k, m, s[0])
    ensures Resumed(Call(k, m, s)) != Resumed(Call(k, Resume(m), s))
  {
    hide Step, Inv, Call, NumberValue, Regenerate, NumberOk, AllWait, RestWithin, Resumed;
    var r, c := Resume(m), s[0];
    ResumedFits(k, m);
    if NumberChar(m, c) != NumberChar(r, c) {
      SignOf(k, m, c);
      if NumberChar(m, c) {
        TakenReads(k, m, s);
        Refused(k, r, s);
        StopDiffers(k, r, s, Call(k, r, s), Call(k, m, s));
      } else {
        TakenReads(k, r, s);
        Refused(k, m, s);
        StopDiffers(k, m, s, Call(k, m, s), Call(k, r, s));
      }
    } else {
      LetterIsNoNumber(m, c);
      LetterIsNoNumber(r, c);
      Refused(k, m, s);
      InfinityTaken(k, r, s);
      if k.strict && c == 'i' {
        FailDiffers(k, m, s, Call(k, m, s));
      } else {
        StopDiffers(k, m, s, Call(k, m, s), Call(k, r, s));
      }
    }
  }

  lemma FailDiffers(k: Config, m: Mach, s: string, a: Outcome)
    requires s != "" && s[0] == 'i' && k.strict && StopsAt(k, m, s, a) && !Harmless(k, m, s[0])
    ensures Resumed(a) != Resumed(Fail(ParseUnexpected, s))
  {
  }

  lemma ResumedFits(k: Config, m: Mach)
    requires Inv(k, m) && NumberOk(m) && m.top.state == NumberS
    ensures Inv(k, Resume(m)) && Resume(m).num.caseLen == 0
    ensures Resume(m).pb == m.pb && Resume(m).below == m.below && Resume(m).top == m.top &&
        Resume(m).isDouble == m.isDouble
  {
    RegenerateFacts(m.pb);
  }

  /** Where a run that is not quiet meets its first spot. */
  lemma {:induction false} FirstSpot(k: Config, m: Mach, s: string) returns (n: nat)
    requires Inv(k, m) && NumberOk(m) && AllWait(m.below) && !Quiet(k, m, s)
    ensures n < |s| && Call(k, m, s[..n]).Continue?
    ensures var at := Call(k, m, s[..n]).at;
            Inv(k, at) && NumberOk(at) && AllWait(at.below) && Spot(k, at, s[n]) && (n == 0 ==> at == m)
    decreases |s|, Rank(m)
  {
    hide Step, Inv, NumberOk, AllWait, Spot;
    if Spot(k, m, s[0]) {
      n := 0;
      assert s[..0] == "";
      SpotWaits(k, m, s[0]);
      return;
    }
    StepKeepsInv(k, m, s[0]);
    NumberOkNext(k, m, s[0]);
    var m' := Step(k, m, s[0]).m;
    if Step(k, m, s[0]).Redo? {
      n := FirstSpot(k, m', s);
      if n == 0 {
        RedoMeetsNone(k, m, s[0]);
      }
      assert s[..n][0] == s[0];
    } else {
      var l := FirstSpot(k, m', s[1..]);
      n := l + 1;
      assert s[..n][0] == s[0] && s[..n][1..] == s[1..][..l];
    }
  }

  lemma SpotWaits(k: Config, m: Mach, c: char)
    requires Spot(k, m, c)
    ensures Call(k, m, "") == Continue(m)
  {
    hide Regenerate;
  }

  /** A number that has just begun has lost nothing yet. */
  lemma RedoMeetsNone(k: Config, m: Mach, c: char)
    requires Inv(k, m) && Step(k, m, c).Redo?
    ensures !Spot(k, Step(k, m, c).m, c)
  {
    hide Step, Inv, NumberEnd;
    StepKeepsInv(k, m, c);
    if m.top.state == NumberS {
      NumberTurn(k, m, c);
      EndLeavesNumber(k, m, c);
    }
    assert Regenerate("") == NUMBER_START;
  }

  /**
   All ways of cutting a text give the outcome of one call if and only if the run meets no spot: no
   sign that a call beginning there would read differently, and no I of Infinity that comes too late.
   */
  lemma CutsAgreeExactly(k: Config, m: Mach, s: string)
    requires BetweenCalls(k, m) && AllWait(m.below)
    ensures (forall pieces: seq<string> | pieces != [] && Join(pieces) == s && AllButLastContinue(k, m, pieces) ::
               Resumed(ParsePieces(k, m, pieces)) == Resumed(Parse(k, m, s)))
            <==> Quiet(k, Resume(m), s)
  {
    hide Call, Inv, Quiet, AllWait, NumberText, Resumed;
    var r := Resume(m);
    if Quiet(k, r, s) {
      forall pieces: seq<string> | pieces != [] && Join(pieces) == s && AllButLastContinue(k, m, pieces)
        ensures Resumed(ParsePieces(k, m, pieces)) == Resumed(Parse(k, m, s))
      {
        CuttingDoesNotMatter(k, m, pieces);
      }
    } else {
      ResumedIsOk(k, m);
      var n := FirstSpot(k, r, s);
      var p, q := s[..n], s[n..];
      var at := Call(k, r, p).at;
      assert p + q == s && q[0] == s[n];
      CallAppend(k, r, p, q);
      SpotShows(k, at, q);
      TwoPieces(k, m, p, q);
    }
  }

  lemma TwoPieces(k: Config, m: Mach, p: string, q: string)
    requires Parse(k, m, p).Continue?
    ensures Join([p, q]) == p + q && AllButLastContinue(k, m, [p, q])
    ensures ParsePieces(k, m, [p, q]) == Parse(k, Parse(k, m, p).at, q)
  {
    hide Parse;
    assert [p, q][1..] == [q] && [q][1..] == [];
    assert Join([q]) == q + "" == q;
  }
}
