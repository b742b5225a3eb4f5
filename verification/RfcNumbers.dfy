/**
 Numbers as section 6 of RFC 8259 writes them. A text all of whose numbers follow that
 grammar and are closed by white space, a comma or a closing bracket can be cut anywhere.
 */
module RfcNumbers {
  import opened JsonValue
  import opened Decimal
  import opened TokenerMachine
  import opened TokenerCut

  /** The positions inside `number = [ minus ] int [ frac ] [ exp ]`. */
  datatype Position = Begin | Minus | Zero | Whole | Point | Frac | Exp | ExpSign | ExpDigits | Bad

  function Next(p: Position, c: char): Position {
    match p
    case Begin => if c == '-' then Minus else AfterMinus(c)
    case Minus => AfterMinus(c)
    case Zero => AfterInt(c)
    case Whole => if IsDigit(c) then Whole else AfterInt(c)
    case Point => if IsDigit(c) then Frac else Bad
    case Frac => if IsDigit(c) then Frac else AfterFrac(c)
    case Exp => if c == '-' || c == '+' then ExpSign else if IsDigit(c) then ExpDigits else Bad
    case ExpSign => if IsDigit(c) then ExpDigits else Bad
    case ExpDigits => if IsDigit(c) then ExpDigits else Bad
    case Bad => Bad
  }

  function AfterMinus(c: char): Position {
    if c == '0' then Zero else if IsDigit(c) then Whole else Bad
  }

  function AfterInt(c: char): Position {
    if c == '.' then Point else AfterFrac(c)
  }

  function AfterFrac(c: char): Position {
    if c == 'e' || c == 'E' then Exp else Bad
  }

  function Reach(s: string): Position {
    if s == "" then Begin else Next(Reach(s[..|s| - 1]), s[|s| - 1])
  }

  predicate Complete(s: string) {
    Reach(s) == Zero || Reach(s) == Whole || Reach(s) == Frac || Reach(s) == ExpDigits
  }

  predicate Closes(c: char) {
    IsWs(c) || c == ',' || c == ']' || c == '}'
  }

  /** Along the run over `s`, every number is written as the RFC says and closed by a structural character. */
  predicate NumbersFollowRfc(k: Config, u: Mach, s: string)
    decreases |s|, Rank(u)
  {
    s == "" ||
    ((u.top.state == NumberS ==> Reach(u.pb + [s[0]]) != Bad || (Complete(u.pb) && Closes(s[0]))) &&
     match Step(k, u, s[0])
     case Redo(m) => NumbersFollowRfc(k, m, s)
     case Advance(m) => s[0] == NUL || NumbersFollowRfc(k, m, s[1..])
     case Halt(_, _) => true)
  }

  lemma RfcStep(pb: string, c: char)
    requires Reach(pb + [c]) != Bad || Closes(c)
    ensures !CutSensitive(pb, c)
  {
    if pb != "" && (c == '-' || c == '+' || c == 'i' || c == 'I') {
      assert (pb + [c])[..|pb|] == pb;
      assert Reach(pb) == Exp || Reach(pb) == Begin;
      ReachExp(pb);
    }
  }

  lemma ReachExp(pb: string)
    requires pb != ""
    ensures Reach(pb) != Begin
    ensures Reach(pb) == Exp ==> HasExponent(pb)
  {
    if Reach(pb) == Exp {
      assert IsExponentMark(pb[|pb| - 1]);
    }
  }

  lemma {:induction false} RfcIsQuiet(k: Config, u: Mach, s: string)
    requires Inv(k, u) && NumberOk(u) && NumbersFollowRfc(k, u, s)
    ensures Quiet(k, u, s)
    decreases |s|, Rank(u)
  {
    hide Step, Inv, NumberOk, Spot;
    if s != "" {
      if u.top.state == NumberS {
        RfcStep(u.pb, s[0]);
      }
      NoSpot(k, u, s[0]);
      if !Step(k, u, s[0]).Halt? {
        NumberOkNext(k, u, s[0]);
        StepKeepsInv(k, u, s[0]);
      }
      match Step(k, u, s[0]) {
        case Redo(m) => RfcIsQuiet(k, m, s);
        case Advance(m) =>
          if s[0] != NUL {
            RfcIsQuiet(k, m, s[1..]);
          }
        case Halt(_, _) =>
      }
    }
  }

  /** The promise of the incremental interface, on every text whose numbers follow RFC 8259. */
  lemma CuttingRfcTextDoesNotMatter(k: Config, m: Mach, pieces: seq<string>)
    requires BetweenCalls(k, m) && pieces != []
    requires NumbersFollowRfc(k, Resume(m), Join(pieces)) && AllButLastContinue(k, m, pieces)
    ensures Resumed(ParsePieces(k, m, pieces)) == Resumed(Parse(k, m, Join(pieces)))
  {
    ResumedIsOk(k, m);
    RfcIsQuiet(k, Resume(m), Join(pieces));
    CuttingDoesNotMatter(k, m, pieces);
  }
}
