/**
 `json_tokener_parse_ex` as it is written: a tokener object updated in place, a loop over
 the buffer with `goto redo_char`, and inner loops that read strings, numbers, white space
 and comments in bulk. ParseEx proves that all of it computes Parse of TokenerMachine.
 */
module Tokener {
  import opened Basics
  import opened OrderedMap
  import opened JsonValue
  import opened Decimal
  import opened TokenerMachine
  import opened TokenerRun

  /** `tok->err`. */
  datatype Status = Success | More | Failed(e: Error)

  /** How a case of the switch ends: `break`, `goto redo_char` or `goto out`. */
  datatype Signal = Next | Again | Stop

  /** The call-local fields hold their defaults except in the states that read them. */
  function Normal(core: Mach, obj: Json): Mach {
    core.(num := if core.top.state == NumberS then Regenerate(core.pb) else NUMBER_START,
          obj := if core.top.state == ArrayAdd || core.top.state == ObjectValueAdd then obj else Null)
  }

  function ErrorOf(s: Status): Option<Error> {
    match s
    case Failed(e) => Some(e)
    case _ => None
  }

  /** The result of the call when a case jumps to `out`. */
  function Stopped(k: Config, m: Mach, c: char, s: Status, rest: string): Outcome {
    if s == More then Continue(m) else Out(k, m, c, ErrorOf(s), rest)
  }

  /** The result when a case breaks out of the switch: the character is read, and NUL ends the loop. */
  function AfterNext(k: Config, m: Mach, s: string): Outcome
    requires s != ""
  {
    if s[0] == NUL then Out(k, m, NUL, None, s[1..]) else Call(k, m, s[1..])
  }

  /** What a case owes, in terms of the outcome `goal` of the whole call. */
  predicate Owes(k: Config, goal: Outcome, sig: Signal, m: Mach, c: char, st: Status, rest: string) {
    match sig
    case Again => rest != "" && c == rest[0] && Inv(k, m) && goal == Resumed(Call(k, m, rest))
    case Next => rest != "" && c == rest[0] && Inv(k, m) && AtRest(m) && goal == Resumed(AfterNext(k, m, rest))
    case Stop =>
      && goal == Resumed(Stopped(k, m, c, st, rest))
      && (st == More ==> AtRest(m) && c != NUL && Inv(k, m) && rest == "")
  }

  /** A machine without its call-local parts. */
  function CoreOf(m: Mach): Mach {
    m.(num := NUMBER_START, obj := Null)
  }

  /** A turn as a case reports it: the signal, the fields, the local `obj` and `tok->err`. */
  predicate Reports(t: Turn, sig: Signal, core: Mach, obj: Json, st: Status) {
    match t
    case Redo(m') => sig == Again && CoreOf(m') == core && (m'.obj == obj || m'.obj == Null)
    case Advance(m') => sig == Next && CoreOf(m') == core
    case Halt(m', Some(e)) => sig == Stop && st == Failed(e) && m'.top == core.top && m'.below == core.below
    case Halt(m', None) => sig == Stop && st == Success && CoreOf(m') == core
  }

  /** The child a level is handed: none, when the level was reset. */
  function Handed(core: Mach, obj: Json): Json {
    if Adding(core.top.state) then obj else Null
  }

  /** Except inside a number the call-local parts follow from the fields. */
  lemma LocalsFollow(k: Config, m0: Mach, c: char, m: Mach)
    requires Inv(k, m0)
    requires Step(k, m0, c) == Redo(m) || Step(k, m0, c) == Advance(m) || Step(k, m0, c) == Halt(m, None)
    requires m.top.state == NumberS ==> m0.top.state != NumberS
    ensures m.top.state != NumberS ==> m.num == NUMBER_START
    ensures m.top.state == NumberS && !Step(k, m0, c).Halt? ==> m.num == Regenerate(m.pb)
    ensures m.top.state != ArrayAdd && m.top.state != ObjectValueAdd ==> m.obj == Null
  {
    hide Step;
    StepKeepsInv(k, m0, c);
  }

  /** A case that does one turn of the machine owes nothing else. */
  lemma OneTurn(k: Config, m0: Mach, s: string, sig: Signal, core: Mach, obj: Json, st: Status)
    requires Inv(k, m0) && s != "" && (m0.top.state == NumberS ==> core.top.state != NumberS || sig == Stop)
    requires core == CoreOf(core) && Reports(Step(k, m0, s[0]), sig, core, obj, st)
    requires m0.top.state == Finish && Step(k, m0, s[0]).Redo? ==> Step(k, m0, s[0]).m.obj == Handed(core, obj)
    ensures Owes(k, Resumed(Call(k, m0, s)), sig, Normal(core, obj), s[0], st, s)
    ensures sig == Again ==> Rank(Normal(core, obj)) < Rank(m0)
  {
    hide Step, Inv, Regenerate;
    StepKeepsInv(k, m0, s[0]);
    var t := Step(k, m0, s[0]);
    if !t.Halt? || t.err == None {
      LocalsFollow(k, m0, s[0], t.m);
    }
  }

  /** Reading one character inside a bulk loop. */
  lemma BulkTurn(k: Config, m0: Mach, s: string, m: Mach)
    requires Inv(k, m0) && s != "" && Step(k, m0, s[0]) == Advance(m)
    ensures Inv(k, m)
    ensures Call(k, m0, s) == AfterNext(k, m, s)
  {
    hide Step, Inv;
    StepKeepsInv(k, m0, s[0]);
  }

  lemma ResetFits(k: Config, m: Mach)
    requires k.maxDepth > 0
    ensures Inv(k, TokenerMachine.Reset(m))
  {
  }

  class Tokener {
    const k: Config
    const stack: array<Srec>
    var depth: int
    var pb: string
    var quote: char
    var ucs: nat
    var high: nat
    var stPos: nat
    var isDouble: bool
    var err: Status
    var charOffset: int

    ghost predicate Shape()
      reads this
    {
      0 <= depth < k.maxDepth == stack.Length
    }

    /** The fields as a machine, with the call-local parts at their defaults. */
    ghost function Core(): Mach
      requires Shape()
      reads this, stack
    {
      Mach(stack[..depth], stack[depth], pb, quote, ucs, high, stPos, isDouble, NUMBER_START, Null)
    }

    ghost function View(obj: Json): Mach
      requires Shape()
      reads this, stack
    {
      Normal(Core(), obj)
    }

    /** Ready for a call: new, reset, asking for more text, or past a value. */
    ghost predicate Valid()
      reads this, stack
    {
      Shape() && Inv(k, View(Null)) && AtRest(View(Null)) && !err.Failed?
    }

    /** `json_tokener_new_ex` with the flags of `json_tokener_set_flags`. */
    constructor (k: Config)
      requires k.maxDepth > 0
      ensures Valid() && this.k == k && fresh(stack) && View(Null) == FRESH
    {
      this.k := k;
      stack := new Srec[k.maxDepth](_ => LEVEL_RESET);
      depth, pb, quote, ucs, high, stPos, isDouble, err, charOffset := 0, "", NUL, 0, 0, 0, false, Success, 0;
    }

    method SetTop(r: Srec)
      requires Shape()
      modifies stack
      ensures Core() == old(Core()).(top := r)
    {
      stack[depth] := r;
      assert stack[..depth] == old(stack[..depth]);
    }

    /** `json_tokener_reset`: every level down to 0, and the error. */
    method Reset()
      requires Shape()
      modifies this`depth, this`err, stack
      ensures Valid() && err == Success
      ensures View(Null) == TokenerMachine.Reset(old(Core()))
    {
      hide Inv;
      var i := depth;
      while i >= 0
        invariant -1 <= i <= depth && depth == old(depth)
        invariant forall j :: i < j <= depth ==> stack[j] == LEVEL_RESET
      {
        stack[i] := LEVEL_RESET;
        i := i - 1;
      }
      depth := 0;
      err := Success;
      assert stack[..0] == [];
      ResetFits(k, Core());
    }

    method Push(waiting: State)
      requires Shape() && depth + 1 < k.maxDepth
      modifies this`depth, stack
      ensures Shape() && Core() == TokenerMachine.Push(old(Core()), waiting)
    {
      stack[depth] := stack[depth].(state := waiting);
      depth := depth + 1;
      stack[depth] := LEVEL_RESET;
      assert stack[..depth] == old(stack[..depth]) + [old(stack[depth]).(state := waiting)];
    }

    method Pop() returns (obj: Json)
      requires Shape() && depth > 0
      modifies this`depth, stack
      ensures Shape() && obj == old(Core()).top.current
      ensures Core() == old(Core()).(below := old(stack[..depth])[..old(depth) - 1],
          top := old(stack[..depth])[old(depth) - 1])
    {
      obj := stack[depth].current;
      stack[depth] := LEVEL_RESET;
      depth := depth - 1;
      assert stack[..depth] == old(stack[..depth])[..depth];
    }

    /** PEEK_CHAR at the end of the buffer. */
    method PeekAtEnd()
      requires Shape()
      modifies this`err
      ensures err == (if Complete(Core()) then Success else More)
    {
      err := if depth == 0 && stack[depth].state == EatWs && stack[depth].saved == Finish then Success else More;
    }

    // ------------------------------------------------------------ white space

    method TurnEatWs(c: char) returns (sig: Signal)
      requires Shape() && Core().top.state == EatWs && Core().top.saved != EatWs && !IsWs(c)
      modifies this`pb, stack
      ensures Shape() && Reports(StepEatWs(k, old(Core()), c), sig, Core(), Null, err) && sig != Stop
    {
      if c == '/' && !k.strict {
        pb := [c];
        SetTop(stack[depth].(state := CommentStart));
        sig := Next;
      } else {
        SetTop(stack[depth].(state := stack[depth].saved));
        sig := Again;
      }
    }

    /** White space up to the next token, comment or the end. */
    method CaseEatWs(str: string, start: nat, ghost goal: Outcome) returns (sig: Signal, i: nat, c: char)
      requires Shape() && Inv(k, View(Null)) && start < |str| && Core().top.state == EatWs && err == Success
      requires goal == Resumed(Call(k, View(Null), str[start..]))
      modifies this`err, this`pb, stack
      ensures Shape() && start <= i <= |str| && Owes(k, goal, sig, View(Null), c, err, str[i..])
      ensures sig != Stop ==> err == Success
      ensures sig == Again ==> i > start || Rank(View(Null)) < old(Rank(View(Null)))
    {
      hide Step, Inv, Call, Owes, Regenerate, Resumed, Rank, Reports, AtEnd;
      ghost var v := View(Null);
      i := start;
      while i < |str| && IsWs(str[i])
        invariant start <= i <= |str|
        invariant forall j :: start <= j < i ==> IsWs(str[j])
        modifies {}
      {
        i := i + 1;
      }
      WsReadAll(k, v, str, start, i);
      if i == |str| {
        c := str[i - 1];
        PeekAtEnd();
        sig := Stop;
        EndOwes(k, v, c, err, str);
      } else {
        c := str[i];
        TokenStep(k, v, c);
        sig := TurnEatWs(c);
        OneTurn(k, v, str[i..], sig, Core(), Null, err);
      }
    }

    // ------------------------------------------------------------ one-turn cases

    method TurnStart(c: char) returns (sig: Signal)
      requires Shape() && err == Success
      modifies this`pb, this`quote, this`stPos, this`isDouble, this`err, stack
      ensures Shape() && Reports(StepStart(k, old(Core()), c), sig, Core(), Null, err)
      ensures sig != Stop ==> err == Success
    {
      sig := Next;
      if c == '{' {
        SetTop(stack[depth].(state := EatWs, saved := FieldStart, current := Obj([])));
      } else if c == '[' {
        SetTop(stack[depth].(state := EatWs, saved := Array, current := Arr([])));
      } else if c == 'I' || c == 'i' {
        SetTop(stack[depth].(state := Inf));
        pb, stPos, sig := "", 0, Again;
      } else if c == 'N' || c == 'n' {
        SetTop(stack[depth].(state := NullLit));
        pb, stPos, sig := "", 0, Again;
      } else if c == '\'' && k.strict {
        err, sig := Failed(ParseUnexpected), Stop;
      } else if c == '\'' || c == '"' {
        SetTop(stack[depth].(state := StringS));
        pb, quote := "", c;
      } else if c == 'T' || c == 't' || c == 'F' || c == 'f' {
        SetTop(stack[depth].(state := Boolean));
        pb, stPos, sig := "", 0, Again;
      } else if IsDigit(c) || c == '-' {
        SetTop(stack[depth].(state := NumberS));
        pb, isDouble, sig := "", false, Again;
      } else {
        err, sig := Failed(ParseUnexpected), Stop;
      }
    }

    method EndValue(v: Json)
      requires Shape()
      modifies stack
      ensures Core() == Finished(old(Core()), v)
    {
      SetTop(stack[depth].(state := EatWs, saved := Finish, current := v));
    }

    method TurnFinish() returns (sig: Signal, obj: Json)
      requires Shape() && err == Success
      requires depth > 0 ==> stack[depth - 1] == LEVEL_RESET || Adding(stack[depth - 1].state)
      modifies this`depth, stack
      ensures Shape() && Reports(StepFinish(old(Core())), sig, Core(), obj, err)
      ensures sig == Again ==> StepFinish(old(Core())).m.obj == Handed(Core(), obj)
    {
      if depth == 0 {
        return Stop, Null;
      }
      obj := Pop();
      sig := Again;
    }

    /** One character of "Infinity" (the inner loop of the source is the outer loop here). */
    method TurnInf(c: char) returns (sig: Signal)
      requires Shape() && err == Success
      modifies this`stPos, this`err, stack
      ensures Shape() && Reports(StepInf(k, old(Core()), c), sig, Core(), Null, err)
      ensures sig != Stop ==> err == Success
    {
      if stPos < 8 {
        if c == "Infinity"[stPos] || (!k.strict && c == "iNFINITY"[stPos]) {
          stPos := stPos + 1;
          sig := Next;
        } else {
          err, sig := Failed(ParseUnexpected), Stop;
        }
      } else {
        EndValue(Double(if pb != "" && pb[0] == '-' then "-Infinity" else "Infinity"));
        sig := Again;
      }
    }

    method TurnNull(c: char) returns (sig: Signal)
      requires Shape() && err == Success
      modifies this`pb, this`stPos, this`err, stack
      ensures Shape() && Reports(StepNull(k, old(Core()), c), sig, Core(), Null, err)
      ensures sig != Stop ==> err == Success
    {
      hide LiteralMatches;
      pb := pb + [c];
      if LiteralMatches(k, "null", pb, Min(stPos + 1, 4)) {
        if stPos == 4 {
          EndValue(Null);
          return Again;
        }
      } else if LiteralMatches(k, "NaN", pb, Min(stPos + 1, 3)) {
        if stPos == 3 {
          EndValue(Double("NaN"));
          return Again;
        }
      } else {
        err := Failed(ParseNull);
        return Stop;
      }
      stPos := stPos + 1;
      sig := Next;
    }

    method TurnBoolean(c: char) returns (sig: Signal)
      requires Shape() && err == Success
      modifies this`pb, this`stPos, this`err, stack
      ensures Shape() && Reports(StepBoolean(k, old(Core()), c), sig, Core(), Null, err)
      ensures sig != Stop ==> err == Success
    {
      hide LiteralMatches;
      pb := pb + [c];
      if LiteralMatches(k, "true", pb, Min(stPos + 1, 4)) {
        if stPos == 4 {
          EndValue(Bool(true));
          return Again;
        }
      } else if LiteralMatches(k, "false", pb, Min(stPos + 1, 5)) {
        if stPos == 5 {
          EndValue(Bool(false));
          return Again;
        }
      } else {
        err := Failed(ParseBoolean);
        return Stop;
      }
      stPos := stPos + 1;
      sig := Next;
    }

    /** The comment states, outside the bulk loops. */
    method TurnComment(c: char) returns (sig: Signal)
      requires Shape() && err == Success
      requires var s := Core().top.state; s == CommentStart || s == Comment || s == CommentEol || s == CommentEnd
      modifies this`pb, this`err, stack
      ensures Shape() && Reports(StepComment(old(Core()), c), sig, Core(), Null, err)
      ensures sig != Stop ==> err == Success
    {
      sig := Next;
      match stack[depth].state {
        case CommentStart =>
          if c == '*' {
            SetTop(stack[depth].(state := Comment));
          } else if c == '/' {
            SetTop(stack[depth].(state := CommentEol));
          } else {
            err := Failed(ParseComment);
            return Stop;
          }
          pb := pb + [c];
        case Comment =>
          pb := pb + [c];
          SetTop(stack[depth].(state := if c == '*' then CommentEnd else Comment));
        case CommentEol =>
          if c == '\n' {
            SetTop(stack[depth].(state := EatWs));
          } else {
            pb := pb + [c];
          }
        case CommentEnd =>
          pb := pb + [c];
          SetTop(stack[depth].(state := if c == '/' then EatWs else Comment));
      }
    }

    /** A quote or a backslash inside a string. */
    method TurnString(c: char) returns (sig: Signal)
      requires Shape() && (c == quote || c == '\\')
      modifies stack
      ensures Shape() && Reports(StepString(old(Core()), c), sig, Core(), Null, err)
    {
      if c == quote {
        EndValue(Str(pb));
      } else {
        SetTop(stack[depth].(state := StringEscape, saved := StringS));
      }
      sig := Next;
    }

    method TurnField(c: char) returns (sig: Signal)
      requires Shape() && (c == quote || c == '\\')
      modifies stack
      ensures Shape() && Reports(StepField(old(Core()), c), sig, Core(), Null, err)
    {
      if c == quote {
        SetTop(stack[depth].(state := EatWs, saved := FieldEnd, field := Some(CString(pb))));
      } else {
        SetTop(stack[depth].(state := StringEscape, saved := ObjectField));
      }
      sig := Next;
    }

    method TurnEscape(c: char) returns (sig: Signal)
      requires Shape() && err == Success
      modifies this`pb, this`ucs, this`stPos, this`err, stack
      ensures Shape() && Reports(StepEscape(old(Core()), c), sig, Core(), Null, err)
      ensures sig != Stop ==> err == Success
    {
      sig := Next;
      if c == '"' || c == '\\' || c == '/' {
        pb := pb + [c];
        SetTop(stack[depth].(state := stack[depth].saved));
      } else if c == 'b' || c == 'n' || c == 'r' || c == 't' || c == 'f' {
        if c == 'b' {
          pb := pb + [8 as char];
        } else if c == 'n' {
          pb := pb + ['\n'];
        } else if c == 'r' {
          pb := pb + ['\r'];
        } else if c == 't' {
          pb := pb + ['\t'];
        } else {
          pb := pb + [12 as char];
        }
        SetTop(stack[depth].(state := stack[depth].saved));
      } else if c == 'u' {
        ucs, stPos := 0, 0;
        SetTop(stack[depth].(state := EscapeUnicode));
      } else {
        err, sig := Failed(ParseString), Stop;
      }
    }

    /** The code behind the fourth hexadecimal digit. */
    method FinishUnicode()
      requires Shape()
      modifies this`pb, this`ucs, this`high, this`stPos, stack
      ensures Shape() && Core() == EscapeDone(old(Core()), old(ucs))
    {
      stPos := 0;
      if high != 0 {
        if IsLowSurrogate(ucs) {
          ucs := DecodePair(high, ucs);
        } else {
          pb := pb + REPLACEMENT;
        }
        high := 0;
      }
      if ucs >= 0x800 && IsHighSurrogate(ucs) {
        high := ucs;
        ucs := 0;
        SetTop(stack[depth].(state := NeedEscape));
        return;
      }
      if ucs >= 0x800 && IsLowSurrogate(ucs) {
        pb := pb + REPLACEMENT;
      } else {
        pb := pb + Utf8Bytes(ucs);
      }
      SetTop(stack[depth].(state := stack[depth].saved));
    }

    /** One hexadecimal digit. */
    method TurnUnicode(c: char) returns (sig: Signal)
      requires Shape() && err == Success && stPos < 4
      modifies this`pb, this`ucs, this`high, this`stPos, this`err, stack
      ensures Shape() && Reports(StepUnicode(old(Core()), c), sig, Core(), Null, err)
      ensures sig == (if IsHex(c) then Next else Stop) && (sig == Stop ==> err.Failed?)
      ensures sig != Stop ==> err == Success
      ensures sig == Next && old(stPos) < 3 ==> Core().top == old(Core()).top && stPos == old(stPos) + 1
      ensures sig == Next && old(stPos) == 3 ==> Core().top.state != EscapeUnicode || Core().top.saved == EscapeUnicode
    {
      hide EscapeDone, Pow16, HexValue;
      if !IsHex(c) {
        err := Failed(ParseString);
        return Stop;
      }
      ucs := ucs + HexValue(c) * Pow16(3 - stPos);
      stPos := stPos + 1;
      if stPos >= 4 {
        ghost var m := Core();
        FinishUnicode();
        DoneIgnoresCount(old(Core()), m.ucs, 4, m.ucs);
        DoneState(old(Core()), m.ucs);
      }
      sig := Next;
    }

    method TurnNeedEscape(c: char) returns (sig: Signal)
      requires Shape() && (Core().top.saved == StringS || Core().top.saved == ObjectField)
      modifies this`pb, this`ucs, this`high, this`stPos, stack
      ensures Shape() && Reports(StepNeedEscape(old(Core()), c), sig, Core(), Null, err)
    {
      if c == '\\' {
        SetTop(stack[depth].(state := NeedU));
        sig := Next;
      } else {
        pb, high, ucs, stPos := pb + REPLACEMENT, 0, 0, 0;
        SetTop(stack[depth].(state := stack[depth].saved));
        sig := Again;
      }
    }

    method TurnNeedU(c: char) returns (sig: Signal)
      requires Shape()
      modifies this`pb, this`ucs, this`high, this`stPos, stack
      ensures Shape() && Reports(StepNeedU(old(Core()), c), sig, Core(), Null, err)
    {
      if c == 'u' {
        SetTop(stack[depth].(state := EscapeUnicode));
        sig := Next;
      } else {
        pb, high, ucs, stPos := pb + REPLACEMENT, 0, 0, 0;
        SetTop(stack[depth].(state := StringEscape));
        sig := Again;
      }
    }

    method TurnArray(c: char) returns (sig: Signal)
      requires Shape() && err == Success
      modifies this`depth, this`err, stack
      ensures Shape() && Reports(StepArray(k, old(Core()), c), sig, Core(), Null, err)
      ensures sig != Stop ==> err == Success
    {
      sig := Next;
      if c == ']' {
        if stack[depth].state == ArrayAfterSep && k.strict {
          err := Failed(ParseUnexpected);
          return Stop;
        }
        SetTop(stack[depth].(state := EatWs, saved := Finish));
      } else {
        if depth >= k.maxDepth - 1 {
          err := Failed(Depth);
          return Stop;
        }
        Push(ArrayAdd);
        sig := Again;
      }
    }

    method TurnArrayAdd(obj: Json) returns (sig: Signal)
      requires Shape() && Core().top.current.Arr?
      modifies stack
      ensures Shape() && Reports(StepArrayAdd(old(Core()).(obj := obj)), sig, Core(), Null, err)
    {
      var top := stack[depth];
      SetTop(top.(state := EatWs, saved := ArraySep, current := Arr(top.current.elems + [obj])));
      sig := Again;
    }

    method TurnArraySep(c: char) returns (sig: Signal)
      requires Shape() && err == Success
      modifies this`err, stack
      ensures Shape() && Reports(StepArraySep(old(Core()), c), sig, Core(), Null, err)
      ensures sig != Stop ==> err == Success
    {
      sig := Next;
      if c == ']' {
        SetTop(stack[depth].(state := EatWs, saved := Finish));
      } else if c == ',' {
        SetTop(stack[depth].(state := EatWs, saved := ArrayAfterSep));
      } else {
        err, sig := Failed(ParseArray), Stop;
      }
    }

    method TurnFieldStart(c: char) returns (sig: Signal)
      requires Shape() && err == Success
      modifies this`pb, this`quote, this`err, stack
      ensures Shape() && Reports(StepFieldStart(k, old(Core()), c), sig, Core(), Null, err)
      ensures sig != Stop ==> err == Success
    {
      sig := Next;
      if c == '}' {
        if stack[depth].state == FieldStartAfterSep && k.strict {
          err := Failed(ParseUnexpected);
          return Stop;
        }
        SetTop(stack[depth].(state := EatWs, saved := Finish));
      } else if c == '"' || c == '\'' {
        quote, pb := c, "";
        SetTop(stack[depth].(state := ObjectField));
      } else {
        err, sig := Failed(ParseObjectKeyName), Stop;
      }
    }

    method TurnFieldEnd(c: char) returns (sig: Signal)
      requires Shape() && err == Success
      modifies this`err, stack
      ensures Shape() && Reports(StepFieldEnd(old(Core()), c), sig, Core(), Null, err)
      ensures sig != Stop ==> err == Success
    {
      if c == ':' {
        SetTop(stack[depth].(state := EatWs, saved := ObjectValue));
        sig := Next;
      } else {
        err, sig := Failed(ParseObjectKeySep), Stop;
      }
    }

    method TurnObjectValue() returns (sig: Signal)
      requires Shape() && err == Success
      modifies this`depth, this`err, stack
      ensures Shape() && Reports(StepObjectValue(k, old(Core())), sig, Core(), Null, err)
      ensures sig != Stop ==> err == Success
    {
      if depth >= k.maxDepth - 1 {
        err := Failed(Depth);
        return Stop;
      }
      Push(ObjectValueAdd);
      sig := Again;
    }

    method TurnObjectValueAdd(obj: Json) returns (sig: Signal)
      requires Shape() && Core().top.current.Obj? && Core().top.field.Some?
      modifies stack
      ensures Shape() && Reports(StepObjectValueAdd(old(Core()).(obj := obj)), sig, Core(), Null, err)
    {
      hide Put;
      var top := stack[depth];
      SetTop(Srec(EatWs, ObjectSep, Obj(Put(top.current.fields, top.field.value, obj)), None));
      sig := Again;
    }

    method TurnObjectSep(c: char) returns (sig: Signal)
      requires Shape() && err == Success
      modifies this`err, stack
      ensures Shape() && Reports(StepObjectSep(old(Core()), c), sig, Core(), Null, err)
      ensures sig != Stop ==> err == Success
    {
      sig := Next;
      if c == '}' {
        SetTop(stack[depth].(state := EatWs, saved := Finish));
      } else if c == ',' {
        SetTop(stack[depth].(state := EatWs, saved := FieldStartAfterSep));
      } else {
        err, sig := Failed(ParseObjectValueSep), Stop;
      }
    }

    // ------------------------------------------------------------ strings and comments in bulk

    /** The end of a stretch of such characters. */
    method SkipRun(str: string, start: nat, here: State) returns (i: nat)
      requires start <= |str|
      ensures start <= i <= |str| && forall j :: start <= j < i ==> str[j] != NUL && Bulk(here, quote, str[j])
      ensures i < |str| ==> str[i] == NUL || !Bulk(here, quote, str[i])
    {
      i := start;
      while i < |str| && str[i] != NUL && Bulk(here, quote, str[i])
        invariant start <= i <= |str|
        invariant forall j :: start <= j < i ==> str[j] != NUL && Bulk(here, quote, str[j])
      {
        i := i + 1;
      }
    }

    /**
     The inner loops of the string, key and comment cases: characters of no special meaning are
     collected and appended at once. NUL ends the loop as ADVANCE_CHAR does.
     */
    method ReadRun(str: string, start: nat, ghost goal: Outcome) returns (stop: bool, i: nat, c: char)
      requires Shape() && Inv(k, View(Null)) && AtRest(View(Null)) && start < |str| && err == Success
      requires BulkState(Core().top.state) && goal == Resumed(Call(k, View(Null), str[start..]))
      modifies this`err, this`pb
      ensures Shape() && start <= i <= |str|
      ensures stop ==> Owes(k, goal, Stop, View(Null), c, err, str[i..])
      ensures !stop ==> i < |str| && c == str[i] && !Bulk(Core().top.state, quote, c) && err == Success
      ensures !stop ==> Inv(k, View(Null)) && goal == Resumed(Call(k, View(Null), str[i..]))
      ensures Core() == old(Core()).(pb := pb)
    {
      hide Step, Inv, Call, Owes, Regenerate, Resumed, AtEnd, Bulk, Complete;
      ghost var v := View(Null);
      var here := stack[depth].state;
      i := SkipRun(str, start, here);
      BulkReadAll(k, v, str, start, i);
      if i == |str| {
        c := str[i - 1];
        pb := pb + str[start..i];
        PeekAtEnd();
        stop := true;
        EndOwes(k, View(Null), c, err, str);
      } else if str[i] == NUL && Bulk(here, quote, NUL) {
        BulkNul(k, v, str, start, i);
        i := i + 1;
        c := NUL;
        pb := pb + str[start..i];
        stop := true;
      } else {
        c := str[i];
        pb := pb + str[start..i];
        stop := false;
      }
    }

    /** The character that ends an inner loop. */
    method TurnBulk(c: char) returns (sig: Signal)
      requires Shape() && err == Success && BulkState(Core().top.state) && !Bulk(Core().top.state, quote, c)
      modifies this`pb, this`err, stack
      ensures Shape() && Reports(Step(k, old(View(Null)), c), sig, Core(), Null, err)
      ensures sig == Next && err == Success
    {
      hide Step, StepString, StepField, StepEscape, StepUnicode, StepNeedEscape, StepNeedU, StepInf, StepNull,
          StepBoolean, StepComment, StepNumber;
      ghost var v := View(Null);
      if stack[depth].state == StringS {
        TextTurn(k, v, c);
        sig := TurnString(c);
      } else if stack[depth].state == ObjectField {
        TextTurn(k, v, c);
        sig := TurnField(c);
      } else {
        LiteralTurn(k, v, c);
        sig := TurnComment(c);
      }
      BulkEnds(v, c);
    }

    /** The string, key and comment cases. */
    method CaseBulk(str: string, start: nat, ghost goal: Outcome) returns (sig: Signal, i: nat, c: char)
      requires Shape() && Inv(k, View(Null)) && start < |str| && err == Success
      requires BulkState(Core().top.state) && goal == Resumed(Call(k, View(Null), str[start..]))
      modifies this`err, this`pb, stack
      ensures Shape() && start <= i <= |str| && Owes(k, goal, sig, View(Null), c, err, str[i..])
      ensures sig == Next || sig == Stop
      ensures sig != Stop ==> err == Success
    {
      hide Step, Inv, Call, Owes, Regenerate, Resumed, Reports;
      var stop;
      stop, i, c := ReadRun(str, start, goal);
      if stop {
        return Stop, i, c;
      }
      ghost var v := View(Null);
      sig := TurnBulk(c);
      OneTurn(k, v, str[i..], sig, Core(), Null, err);
    }

    // ------------------------------------------------------------ \uXXXX

    /** One digit of the loop below; `more` when another digit is due. */
    method UnicodeDigit(str: string, i: nat, ghost goal: Outcome) returns (sig: Signal, more: bool)
      requires Shape() && Inv(k, View(Null)) && i < |str| && err == Success
      requires Core().top.state == EscapeUnicode && goal == Resumed(Call(k, View(Null), str[i..]))
      modifies this`pb, this`ucs, this`high, this`stPos, this`err, stack
      ensures Shape() && Owes(k, goal, sig, View(Null), str[i], err, str[i..])
      ensures sig == (if IsHex(str[i]) then Next else Stop) && (sig != Stop ==> err == Success)
      ensures more ==> sig == Next && Core().top.state == EscapeUnicode
    {
      hide Step, Inv, Call, Owes, Regenerate, Resumed, Reports, StepString, StepField, StepEscape, StepUnicode,
          StepNeedEscape, StepNeedU;
      ghost var v := View(Null);
      TextTurn(k, v, str[i]);
      UnicodeFits(k, v);
      more := stPos < 3;
      sig := TurnUnicode(str[i]);
      more := more && sig == Next;
      OneTurn(k, v, str[i..], sig, Core(), Null, err);
    }

    /** Up to four hexadecimal digits; what is read stays in the fields when the text ends. */
    method CaseUnicode(str: string, start: nat, ghost goal: Outcome) returns (sig: Signal, i: nat, c: char)
      requires Shape() && Inv(k, View(Null)) && start < |str| && err == Success
      requires Core().top.state == EscapeUnicode && goal == Resumed(Call(k, View(Null), str[start..]))
      modifies this`pb, this`ucs, this`high, this`stPos, this`err, stack
      ensures Shape() && start <= i <= |str| && Owes(k, goal, sig, View(Null), c, err, str[i..])
      ensures sig == Next || sig == Stop
      ensures sig != Stop ==> err == Success
    {
      hide Step, Inv, Call, Owes, Regenerate, Resumed, AtEnd;
      i := start;
      var more;
      while true
        invariant Shape() && Inv(k, View(Null)) && start <= i < |str| && err == Success
        invariant Core().top.state == EscapeUnicode && goal == Resumed(Call(k, View(Null), str[i..]))
        decreases |str| - i
      {
        c := str[i];
        sig, more := UnicodeDigit(str, i, goal);
        if !more {
          return;
        }
        NextOwes(k, goal, View(Null), c, err, str, i);
        i := i + 1;
        if i == |str| {
          PeekAtEnd();
          EndOwes(k, View(Null), c, err, str);
          return Stop, i, c;
        }
      }
    }

    // ------------------------------------------------------------ numbers

    /** The code behind the digit loop, from the error check to the value. */
    method TurnNumberEnd(text: string, c: char, caseLen: nat, ghost n: NumberLocals) returns (sig: Signal)
      requires Shape() && err == Success && n.caseLen == caseLen && Core().top.state == NumberS
      modifies this`pb, this`stPos, this`err, stack
      ensures Shape()
      ensures Reports(NumberEnd(k, old(Core()).(pb := old(pb) + text, num := n), c), sig, Core(), Null, err)
      ensures sig != Next && (sig == Again ==> (Core().top.state == Inf || Core().top.state == EatWs) && err == Success)
      ensures sig == Stop ==> err.Failed?
    {
      hide NumberValue, TrimExponent, EndsNumber;
      if depth > 0 && !EndsNumber(c) {
        err := Failed(ParseNumber);
        return Stop;
      }
      pb := pb + text;
      if pb != "" && pb[0] == '-' && caseLen <= 1 && (c == 'i' || c == 'I') {
        SetTop(stack[depth].(state := Inf));
        stPos := 0;
        return Again;
      }
      if isDouble && !k.strict {
        pb := TrimExponent(pb);
      }
      match NumberValue(k, pb, isDouble) {
        case Some(v) =>
          EndValue(v);
          sig := Again;
        case None =>
          err, sig := Failed(ParseNumber), Stop;
      }
    }

    /** The digit loop: its locals are rebuilt from the text of earlier calls. */
    method ReadNumber(str: string, start: nat) returns (i: nat, n: NumberLocals)
      requires Shape() && start < |str|
      modifies this`isDouble
      ensures Shape() && start <= i <= |str| && n.caseLen == i - start
      ensures Core() == old(Core()).(isDouble := isDouble)
      ensures NumberRun(old(View(Null)).(num := Regenerate(pb)), str[start..i]) ==
              old(View(Null)).(pb := pb + str[start..i], isDouble := isDouble, num := n)
      ensures AllNumberChars(old(View(Null)).(num := Regenerate(pb)), str[start..i])
      ensures i < |str| ==> !NumberChar(Core().(pb := pb + str[start..i], num := n), str[i])
    {
      hide Regenerate;
      ghost var v := View(Null).(num := Regenerate(pb));
      i, n := start, Regenerate(pb);
      assert str[start..start] == [] && pb + [] == pb;
      RegenerateLength(pb);
      while i < |str| && IsNumberChar(n, isDouble, str[i])
        invariant Shape() && start <= i <= |str| && n.caseLen == i - start
        invariant Core() == old(Core()).(isDouble := isDouble)
        invariant NumberRun(v, str[start..i]) == v.(pb := pb + str[start..i], isDouble := isDouble, num := n)
        invariant AllNumberChars(v, str[start..i])
      {
        var c := str[i];
        RunSnoc(v, str, start, i);
        var exp := c == 'e' || c == 'E';
        var sign := c == '.' || exp;
        isDouble := isDouble || sign;
        n := NumberLocals(n.isExponent || exp, sign, sign, n.caseLen + 1);
        i := i + 1;
      }
    }

    /** After the digit loop: the end of the text, or the end of the number. */
    method FinishNumber(str: string, start: nat, i: nat, n: NumberLocals, ghost goal: Outcome) returns (sig: Signal,
        c: char)
      requires Shape() && err == Success && start <= i <= |str| && start < |str| && n.caseLen == i - start
      requires var m := Core().(pb := pb + str[start..i], num := n);
               && m.top.state == NumberS && Inv(k, m) && goal == Resumed(Call(k, m, str[i..]))
               && (i < |str| ==> !NumberChar(m, str[i]))
      requires i > start ==> str[i - 1] != NUL
      modifies this`pb, this`stPos, this`err, stack
      ensures Shape() && Owes(k, goal, sig, View(Null), c, err, str[i..])
      ensures sig == Again ==> Rank(View(Null)) < Rank(old(Core()).(pb := old(pb) + str[start..i])) && err == Success
      ensures sig != Next
    {
      hide Step, Inv, Call, Owes, Regenerate, Resumed, Reports, NumberChar, Rank, NumberEnd, StepInf, StepNull,
          StepBoolean, StepComment;
      ghost var m := Core().(pb := pb + str[start..i], num := n);
      RankOfNumber(Core().(pb := pb + str[start..i]), m);
      if i == |str| {
        c := str[i - 1];
        pb := pb + str[start..i];
        PeekAtEnd();
        sig := Stop;
        NumberPauses(k, m, c, str);
      } else {
        c := str[i];
        LiteralTurn(k, m, c);
        sig := TurnNumberEnd(str[start..i], c, i - start, n);
        OneTurn(k, m, str[i..], sig, Core(), Null, err);
      }
    }

    method CaseNumber(str: string, start: nat, ghost goal: Outcome) returns (sig: Signal, i: nat, c: char)
      requires Shape() && Inv(k, View(Null)) && start < |str| && err == Success
      requires Core().top.state == NumberS && goal == Resumed(Call(k, View(Null), str[start..]))
      modifies this`pb, this`stPos, this`isDouble, this`err, stack
      ensures Shape() && start <= i <= |str| && Owes(k, goal, sig, View(Null), c, err, str[i..])
      ensures sig != Next && (sig == Again ==> i > start || Rank(View(Null)) < old(Rank(View(Null))))
      ensures sig != Stop ==> err == Success
    {
      hide Step, Inv, Call, Owes, Regenerate, Resumed, AtEnd, NumberRun, NumberChar, Rank, AllNumberChars;
      ghost var v := View(Null);
      var n;
      i, n := ReadNumber(str, start);
      NumberReadAll(k, v, str, start, i);
      LastNotNul(v, str, start, i);
      assert i == start ==> pb + str[start..i] == pb;
      if i == start {
        RankOfNumber(v, Core().(pb := pb + str[start..i]));
      }
      sig, c := FinishNumber(str, start, i, n, goal);
    }

    // ------------------------------------------------------------ the switch

    /** Literals, comments outside the bulk loops, escapes, and the first character of a value. */
    method TurnToken(c: char) returns (sig: Signal)
      requires Shape() && Inv(k, View(Null)) && err == Success
      requires TokenCase(Core().top.state)
      modifies this, stack
      ensures Shape() && Reports(Step(k, old(View(Null)), c), sig, Core(), Null, err)
      ensures sig != Stop ==> err == Success
    {
      hide Step, Inv, StepInf, StepNull, StepBoolean, StepComment, StepNumber, StepStart,
        StepString, StepField, StepEscape, StepUnicode, StepNeedEscape, StepNeedU;
      ghost var v := View(Null);
      LiteralTurn(k, v, c);
      if stack[depth].state == NeedEscape {
        EscapeKnown(k, v);
      }
      if TextState(stack[depth].state) {
        TextTurn(k, v, c);
      }
      if stack[depth].state == Start {
        StartTurn(k, v, c);
        sig := TurnStart(c);
      } else if stack[depth].state == Inf {
        sig := TurnInf(c);
      } else if stack[depth].state == NullLit {
        sig := TurnNull(c);
      } else if stack[depth].state == Boolean {
        sig := TurnBoolean(c);
      } else if stack[depth].state == StringEscape {
        sig := TurnEscape(c);
      } else if stack[depth].state == NeedEscape {
        sig := TurnNeedEscape(c);
      } else if stack[depth].state == NeedU {
        sig := TurnNeedU(c);
      } else {
        sig := TurnComment(c);
      }
    }

    /** Between the parts of a container. */
    method TurnContainer(c: char) returns (sig: Signal)
      requires Shape() && Inv(k, View(Null)) && err == Success
      requires ContainerCase(Core().top.state)
      modifies this, stack
      ensures Shape() && Reports(Step(k, old(View(Null)), c), sig, Core(), Null, err)
      ensures sig != Stop ==> err == Success
    {
      hide Step, Inv, StepFinish, StepArrayAdd, StepObjectValueAdd, StepObjectValue, StepArray, StepArraySep,
          StepObjectSep,
        StepFieldStart, StepFieldEnd;
      StackTurn(k, View(Null), c);
      if stack[depth].state == Array || stack[depth].state == ArrayAfterSep {
        sig := TurnArray(c);
      } else if stack[depth].state == ArraySep {
        sig := TurnArraySep(c);
      } else if stack[depth].state == FieldStart || stack[depth].state == FieldStartAfterSep {
        sig := TurnFieldStart(c);
      } else if stack[depth].state == FieldEnd {
        sig := TurnFieldEnd(c);
      } else if stack[depth].state == ObjectValue {
        sig := TurnObjectValue();
      } else {
        sig := TurnObjectSep(c);
      }
    }

    /** The end of a value, and the container that takes it. */
    method TurnChild(c: char, obj: Json) returns (sig: Signal, obj': Json)
      requires Shape() && Inv(k, View(obj)) && err == Success
      requires Core().top.state == Finish || Adding(Core().top.state)
      modifies this, stack
      ensures Shape() && Reports(Step(k, old(View(obj)), c), sig, Core(), obj', err)
      ensures old(Core()).top.state == Finish && Step(k, old(View(obj)), c).Redo? ==>
                Step(k, old(View(obj)), c).m.obj == Handed(Core(), obj')
      ensures sig != Stop ==> err == Success
    {
      hide Step, Inv, StepFinish, StepArrayAdd, StepObjectValueAdd, StepObjectValue, StepArray, StepArraySep,
          StepObjectSep,
        StepFieldStart, StepFieldEnd;
      ghost var v := View(obj);
      StackTurn(k, v, c);
      ChildKnown(k, v);
      if stack[depth].state == Finish {
        sig, obj' := TurnFinish();
      } else if stack[depth].state == ArrayAdd {
        sig := TurnArrayAdd(obj);
        obj' := Null;
      } else {
        sig := TurnObjectValueAdd(obj);
        obj' := Null;
      }
    }

    /** `switch (state)`. */
    method Switch(str: string, start: nat, obj: Json, ghost goal: Outcome)
      returns (sig: Signal, i: nat, c: char, obj': Json)
      requires Shape() && Inv(k, View(obj)) && start < |str| && err == Success
      requires goal == Resumed(Call(k, View(obj), str[start..]))
      modifies this, stack
      ensures Shape() && start <= i <= |str| && Owes(k, goal, sig, View(obj'), c, err, str[i..])
      ensures sig == Again ==> i > start || Rank(View(obj')) < old(Rank(View(obj)))
      ensures sig != Stop ==> err == Success
    {
      hide Step, Inv, Call, Owes, Regenerate, Resumed, Rank, Reports;
      var s := stack[depth].state;
      obj' := Null;
      if s == EatWs {
        sig, i, c := CaseEatWs(str, start, goal);
      } else if BulkState(s) {
        sig, i, c := CaseBulk(str, start, goal);
      } else if s == EscapeUnicode {
        sig, i, c := CaseUnicode(str, start, goal);
      } else if s == NumberS {
        sig, i, c := CaseNumber(str, start, goal);
      } else {
        ghost var v := View(obj);
        i, c := start, str[start];
        if TokenCase(s) {
          sig := TurnToken(c);
        } else if ContainerCase(s) {
          sig := TurnContainer(c);
        } else {
          sig, obj' := TurnChild(c, obj);
        }
        OneTurn(k, v, str[i..], sig, Core(), obj', err);
      }
    }

    // ------------------------------------------------------------ the call

    /** The `goto redo_char` turns on one character (and what the bulk loops read besides). */
    method RunTurns(str: string, start: nat, ghost goal: Outcome)
      returns (sig: Signal, i: nat, c: char, obj: Json)
      requires Shape() && Inv(k, View(Null)) && start < |str| && err == Success
      requires goal == Resumed(Call(k, View(Null), str[start..]))
      modifies this, stack
      ensures Shape() && start <= i <= |str| && sig != Again && Owes(k, goal, sig, View(obj), c, err, str[i..])
      ensures sig != Stop ==> err == Success
    {
      hide Step, Inv, Call, Owes, Regenerate, Resumed, Rank;
      sig, i, c, obj := Switch(str, start, Null, goal);
      while sig == Again
        invariant Shape() && start <= i <= |str| && Owes(k, goal, sig, View(obj), c, err, str[i..])
        invariant sig != Stop ==> err == Success
        decreases sig == Again, |str| - i, Rank(View(obj))
      {
        AgainOwes(k, goal, View(obj), c, err, str, i);
        sig, i, c, obj := Switch(str, i, obj, goal);
      }
    }

    /** `while (PEEK_CHAR(c, tok))` */
    method Loop(str: string, ghost goal: Outcome) returns (i: nat, c: char, obj: Json)
      requires Shape() && Inv(k, View(Null)) && AtRest(View(Null)) && err == Success
      requires goal == Resumed(Call(k, View(Null), str))
      modifies this, stack
      ensures Shape() && i <= |str| && Owes(k, goal, Stop, View(obj), c, err, str[i..])
    {
      hide Step, Inv, Call, Owes, Regenerate, Resumed, AtEnd;
      i, c, obj := 0, 1 as char, Null;
      assert str[0..] == str;
      while true
        invariant Shape() && err == Success && i <= |str| && c != NUL && AtRest(View(obj))
        invariant Inv(k, View(obj)) && goal == Resumed(Call(k, View(obj), str[i..]))
        decreases |str| - i
      {
        RestView(Core(), obj);
        if i == |str| {
          PeekAtEnd();
          EndOwes(k, View(obj), c, err, str);
          return;
        }
        var sig;
        sig, i, c, obj := RunTurns(str, i, goal);
        if sig == Stop {
          return;
        }
        SuffixKnown(k, goal, View(obj), c, err, str, i);
        if c == NUL {
          NulOwes(k, goal, View(obj), err, str, i);
          i := i + 1;
          return;
        }
        NextOwes(k, goal, View(obj), c, err, str, i);
        i := i + 1;
      }
    }

    /** `json_tokener_reset_level` on every level, the depth staying where it is. */
    method ResetAllLevels()
      requires Shape()
      modifies stack
      ensures Core() == CoreOf(ResetLevels(old(Core())))
    {
      var i := depth;
      while i >= 0
        invariant -1 <= i <= depth
        invariant forall j :: i < j <= depth ==> stack[j] == LEVEL_RESET
      {
        stack[i] := LEVEL_RESET;
        i := i - 1;
      }
      assert stack[..depth] == seq(depth, _ => LEVEL_RESET);
    }

    /** The two checks behind `out:`. */
    method CheckEnd(c: char)
      requires Shape()
      modifies this`err
      ensures err == FinalStatus(k, Core(), c, old(err))
    {
      if c != NUL && stack[depth].state == Finish && depth == 0 && k.strict && !k.allowTrailing {
        err := Failed(ParseUnexpected);
      }
      if c == NUL && stack[depth].state != Finish && stack[depth].saved != Finish {
        err := Failed(ParseEof);
      }
    }

    /**
     `json_tokener_parse_ex` on a buffer of |str| characters; with len == -1 the buffer ends in
     the terminating NUL. The returned value, `err`, the unread rest and the tokener afterwards
     are those of Parse. After an error the tokener must be reset.
     */
    method ParseEx(str: string) returns (ret: Option<Json>)
      requires Valid()
      modifies this, stack
      ensures Shape()
      ensures match Resumed(Parse(k, old(View(Null)), str))
              case Ok(v, after, rest) =>
                && ret == Some(v) && err == Success && charOffset == |str| - |rest|
                && View(Null) == after && Valid()
              case Continue(at) => ret == None && err == More && charOffset == |str| && View(Null) == at && Valid()
              case Fail(e, rest) => ret == None && err == Failed(e) && charOffset == |str| - |rest|
    {
      hide Step, Inv, Call, Regenerate, Rank, AtEnd, Owes, Out, FinalStatus;
      ghost var goal := Resumed(Parse(k, View(Null), str));
      ParseIsCall(k, Core(), str);
      err := Success;
      var i, c, obj := Loop(str, goal);
      StopOwes(k, goal, View(obj), c, err, str[i..]);
      ghost var m, st := View(obj), err;
      charOffset := i;
      CheckEnd(c);
      OutIsFinal(k, m, c, st, str[i..]);
      if err == More {
        RestView(Core(), obj);
        ParseIsCall(k, Core(), str);
      }
      ret := None;
      if err == Success {
        ret := Some(stack[depth].current);
        ResetAllLevels();
        FreshLevelFits(k, View(Null));
      }
    }
  }

  lemma WsRead(k: Config, m: Mach, str: string, i: nat)
    requires Inv(k, m) && m.top.state == EatWs && i < |str| && IsWs(str[i])
    ensures Call(k, m, str[i..]) == Call(k, m, str[i + 1..])
  {
    hide Inv, Call, Step;
    TokenStep(k, m, str[i]);
    BulkTurn(k, m, str[i..], m);
    assert str[i..][1..] == str[i + 1..];
  }

  lemma {:induction false} WsReadAll(k: Config, m: Mach, str: string, start: nat, i: nat)
    requires Inv(k, m) && m.top.state == EatWs && start <= i <= |str|
    requires forall j :: start <= j < i ==> IsWs(str[j])
    ensures Call(k, m, str[start..]) == Call(k, m, str[i..])
    decreases i - start
  {
    hide Call;
    if start < i {
      WsRead(k, m, str, start);
      WsReadAll(k, m, str, start + 1, i);
    }
  }

  lemma TokenStep(k: Config, m: Mach, c: char)
    requires Inv(k, m) && m.top.state == EatWs
    ensures m.top.saved != EatWs && Step(k, m, c) == StepEatWs(k, m, c)
  {
    hide StepEatWs;
  }

  /** The states whose inner loop collects characters. */
  predicate BulkState(s: State) {
    s == StringS || s == ObjectField || s == Comment || s == CommentEol
  }

  predicate Bulk(s: State, quote: char, c: char) {
    match s
    case Comment => c != '*'
    case CommentEol => c != '\n'
    case _ => c != quote && c != '\\'
  }

  function Read(m: Mach, s: string): Mach {
    m.(pb := m.pb + s)
  }

  lemma BulkStep(k: Config, m: Mach, c: char)
    requires BulkState(m.top.state) && Bulk(m.top.state, m.quote, c)
    ensures Step(k, m, c) == Advance(Read(m, [c]))
  {
    hide Step;
    if TextState(m.top.state) {
      TextTurn(k, m, c);
    }
    LiteralTurn(k, m, c);
  }

  lemma BulkEnds(m: Mach, c: char)
    requires BulkState(m.top.state) && !Bulk(m.top.state, m.quote, c)
    ensures m.top.state == StringS ==> StepString(m, c).Advance?
    ensures m.top.state == ObjectField ==> StepField(m, c).Advance?
    ensures m.top.state == Comment || m.top.state == CommentEol ==> StepComment(m, c).Advance?
  {
  }

  lemma ReadMore(m: Mach, str: string, start: nat, i: nat)
    requires start <= i < |str|
    ensures Read(Read(m, str[start..i]), [str[i]]) == Read(m, str[start..i + 1])
  {
    assert str[start..i] + [str[i]] == str[start..i + 1];
    assert m.pb + str[start..i] + [str[i]] == m.pb + str[start..i + 1];
  }

  lemma BulkRead(k: Config, m: Mach, str: string, start: nat, i: nat)
    requires start <= i < |str| && str[i] != NUL && BulkState(m.top.state) && Bulk(m.top.state, m.quote, str[i])
    requires Inv(k, Read(m, str[start..i]))
    ensures Inv(k, Read(m, str[start..i + 1]))
    ensures Call(k, Read(m, str[start..i]), str[i..]) == Call(k, Read(m, str[start..i + 1]), str[i + 1..])
  {
    hide Step, Inv, Call;
    var a := Read(m, str[start..i]);
    BulkStep(k, a, str[i]);
    ReadMore(m, str, start, i);
    BulkTurn(k, a, str[i..], Read(m, str[start..i + 1]));
    assert str[i..][1..] == str[i + 1..];
  }

  lemma {:induction false} BulkReadAll(k: Config, m: Mach, str: string, start: nat, i: nat)
    requires Inv(k, m) && BulkState(m.top.state) && start <= i <= |str|
    requires forall j :: start <= j < i ==> str[j] != NUL && Bulk(m.top.state, m.quote, str[j])
    ensures Inv(k, Read(m, str[start..i]))
    ensures Call(k, m, str[start..]) == Call(k, Read(m, str[start..i]), str[i..])
    decreases i
  {
    hide Inv, Call, Bulk;
    if start < i {
      BulkReadAll(k, m, str, start, i - 1);
      BulkRead(k, m, str, start, i - 1);
    } else {
      assert m.pb + str[start..i] == m.pb;
    }
  }

  lemma BulkNul(k: Config, m: Mach, str: string, start: nat, i: nat)
    requires start <= i < |str| && str[i] == NUL && BulkState(m.top.state) && Bulk(m.top.state, m.quote, NUL)
    requires Inv(k, Read(m, str[start..i]))
    ensures Owes(k, Resumed(Call(k, Read(m, str[start..i]), str[i..])), Stop, Read(m, str[start..i + 1]), NUL,
        Success, str[i + 1..])
  {
    hide Step, Inv, Call, Out;
    var a := Read(m, str[start..i]);
    BulkStep(k, a, NUL);
    ReadMore(m, str, start, i);
    BulkTurn(k, a, str[i..], Read(m, str[start..i + 1]));
    assert str[i..][1..] == str[i + 1..];
  }

  lemma UnicodeFits(k: Config, m: Mach)
    requires Inv(k, m) && m.top.state == EscapeUnicode
    ensures m.stPos < 4 && m.top.saved != EscapeUnicode
  {
  }

  /** After `break`, the next character is the first of the rest. */
  lemma NextOwes(k: Config, goal: Outcome, m: Mach, c: char, st: Status, str: string, i: nat)
    requires i < |str| && c == str[i] && c != NUL && Owes(k, goal, Next, m, c, st, str[i..])
    ensures Inv(k, m) && AtRest(m) && goal == Resumed(Call(k, m, str[i + 1..]))
  {
    hide Inv, Call;
    assert str[i..][1..] == str[i + 1..];
  }

  predicate IsNumberChar(n: NumberLocals, isDouble: bool, c: char) {
    && c != NUL
    && (IsDigit(c) || (!n.isExponent && (c == 'e' || c == 'E')) || (n.negOk && c == '-')
        || (n.posOk && c == '+') || (!isDouble && c == '.'))
  }

  /** The machine after reading number characters one by one. */
  function NumberRun(m: Mach, s: string): Mach {
    if s == "" then m else NumberNext(NumberRun(m, s[..|s| - 1]), s[|s| - 1])
  }

  predicate AllNumberChars(m: Mach, s: string) {
    s == "" || (AllNumberChars(m, s[..|s| - 1]) && NumberChar(NumberRun(m, s[..|s| - 1]), s[|s| - 1]))
  }

  lemma RunSnoc(m: Mach, str: string, start: nat, i: nat)
    requires start <= i < |str|
    ensures NumberRun(m, str[start..i + 1]) == NumberNext(NumberRun(m, str[start..i]), str[i])
    ensures AllNumberChars(m, str[start..i + 1]) <==>
            AllNumberChars(m, str[start..i]) && NumberChar(NumberRun(m, str[start..i]), str[i])
    ensures forall x: string :: x + str[start..i + 1] == x + str[start..i] + [str[i]]
  {
    hide NumberNext, NumberChar;
    var s := str[start..i + 1];
    assert s[..|s| - 1] == str[start..i];
    assert s == str[start..i] + [str[i]];
  }

  lemma RegenerateLength(pb: string)
    ensures Regenerate(pb).caseLen == 0
  {
  }

  lemma {:induction false} NumberReadAll(k: Config, m: Mach, str: string, start: nat, i: nat)
    requires Inv(k, m) && m.top.state == NumberS && start <= i <= |str|
    requires AllNumberChars(m, str[start..i])
    ensures Inv(k, NumberRun(m, str[start..i])) && NumberRun(m, str[start..i]).top == m.top
    ensures Call(k, m, str[start..]) == Call(k, NumberRun(m, str[start..i]), str[i..])
    decreases i
  {
    hide Inv, Call, Step, NumberChar;
    if start < i {
      RunSnoc(m, str, start, i - 1);
      NumberReadAll(k, m, str, start, i - 1);
      var a := NumberRun(m, str[start..i - 1]);
      LiteralTurn(k, a, str[i - 1]);
      assert a.top.state == NumberS;
      NumberCharNotNul(a, str[i - 1]);
      BulkTurn(k, a, str[i - 1..], NumberNext(a, str[i - 1]));
      assert str[i - 1..][1..] == str[i..];
    }
  }

  lemma LastNotNul(m: Mach, str: string, start: nat, i: nat)
    requires start <= i <= |str| && AllNumberChars(m, str[start..i])
    ensures i > start ==> str[i - 1] != NUL
  {
    hide NumberRun;
  }

  lemma NumberCharNotNul(m: Mach, c: char)
    requires NumberChar(m, c)
    ensures c != NUL
  {
  }

  /** The text ends inside a number: what is kept is the text, not the locals. */
  lemma NumberPauses(k: Config, m: Mach, c: char, str: string)
    requires Inv(k, m) && m.top.state == NumberS && c != NUL
    ensures Owes(k, Resumed(Call(k, m, str[|str|..])), Stop, Normal(CoreOf(m), Null), c, More, str[|str|..])
  {
    hide Regenerate;
  }

  lemma RankOfNumber(a: Mach, b: Mach)
    requires a.top == b.top && a.pb == b.pb && a.stPos == b.stPos
    ensures Rank(a) == Rank(b)
  {
  }

  predicate TokenCase(s: State) {
    || s == Start || s == Inf || s == NullLit || s == Boolean || s == CommentStart || s == CommentEnd
    || s == StringEscape || s == NeedEscape || s == NeedU
  }

  predicate ContainerCase(s: State) {
    || s == Array || s == ArrayAfterSep || s == ArraySep || s == FieldStart || s == FieldStartAfterSep
    || s == FieldEnd || s == ObjectValue || s == ObjectSep
  }

  lemma EscapeKnown(k: Config, m: Mach)
    requires Inv(k, m) && m.top.state == NeedEscape
    ensures m.top.saved == StringS || m.top.saved == ObjectField
  {
  }

  /** What the stack invariant says about a level that takes a child, and the level below a finished one. */
  lemma ChildKnown(k: Config, m: Mach)
    requires Inv(k, m)
    ensures m.top.state == ArrayAdd ==> m.top.current.Arr?
    ensures m.top.state == ObjectValueAdd ==> m.top.current.Obj? && m.top.field.Some?
    ensures m.below != [] ==> m.below[|m.below| - 1] == LEVEL_RESET || Adding(m.below[|m.below| - 1].state)
  {
    if m.below != [] {
      PopFits(k, m.below);
    }
  }

  lemma AgainOwes(k: Config, goal: Outcome, m: Mach, c: char, st: Status, str: string, i: nat)
    requires i <= |str| && Owes(k, goal, Again, m, c, st, str[i..])
    ensures i < |str| && Inv(k, m) && goal == Resumed(Call(k, m, str[i..]))
  {
  }

  lemma SuffixKnown(k: Config, goal: Outcome, m: Mach, c: char, st: Status, str: string, i: nat)
    requires i <= |str| && Owes(k, goal, Next, m, c, st, str[i..])
    ensures i < |str| && c == str[i]
  {
  }

  lemma StopOwes(k: Config, goal: Outcome, m: Mach, c: char, st: Status, rest: string)
    requires Owes(k, goal, Stop, m, c, st, rest)
    ensures goal == Resumed(Stopped(k, m, c, st, rest))
    ensures st == More ==> AtRest(m) && c != NUL && Inv(k, m) && rest == ""
  {
  }

  /** NUL ends the loop after it was read. */
  lemma NulOwes(k: Config, goal: Outcome, m: Mach, st: Status, str: string, i: nat)
    requires i < |str| && str[i] == NUL && st == Success && Owes(k, goal, Next, m, NUL, st, str[i..])
    ensures Owes(k, goal, Stop, m, NUL, st, str[i + 1..])
  {
    hide Inv, Call, Out;
    assert str[i..][1..] == str[i + 1..];
  }

  lemma RestView(core: Mach, obj: Json)
    requires AtRest(Normal(core, obj))
    ensures Normal(core, obj) == Normal(core, Null)
  {
  }

  lemma ParseIsCall(k: Config, core: Mach, str: string)
    ensures Parse(k, Normal(core, Null), str) == Call(k, Normal(core, Null), str)
    ensures Resume(Normal(core, Null)) == Normal(core, Null)
  {
    hide Call, Regenerate;
  }

  function FinalStatus(k: Config, m: Mach, c: char, st: Status): Status {
    if c == NUL && m.top.state != Finish && m.top.saved != Finish then Failed(ParseEof)
    else if c != NUL && m.top.state == Finish && m.below == [] && k.strict &&
        !k.allowTrailing then Failed(ParseUnexpected)
    else st
  }

  /** The outcome, read off the final status. */
  lemma OutIsFinal(k: Config, m: Mach, c: char, st: Status, rest: string)
    requires st == More ==> AtRest(m) && c != NUL
    ensures FinalStatus(k, CoreOf(m), c, st) == FinalStatus(k, m, c, st)
    ensures FinalStatus(k, m, c, st) == More ==> st == More
    ensures match FinalStatus(k, m, c, st)
            case Success => Stopped(k, m, c, st, rest) == Ok(m.top.current, ResetLevels(m), rest)
            case More => Stopped(k, m, c, st, rest) == Continue(m)
            case Failed(e) => Stopped(k, m, c, st, rest) == Fail(e, rest)
  {
  }

  lemma FreshLevelFits(k: Config, m: Mach)
    requires m.top == LEVEL_RESET && m.num == NUMBER_START && m.obj == Null && |m.below| < k.maxDepth
    requires forall i :: 0 <= i < |m.below| ==> m.below[i] == LEVEL_RESET
    ensures Inv(k, m)
  {
  }

  lemma DoneState(m: Mach, u: nat)
    ensures EscapeDone(m, u).top.state == NeedEscape || EscapeDone(m, u).top.state == m.top.saved
    ensures EscapeDone(m, u).top.saved == m.top.saved
  {
  }

  /** The end of the buffer inside a bulk loop. */
  lemma EndOwes(k: Config, m: Mach, c: char, st: Status, str: string)
    requires c != NUL && st == (if Complete(m) then Success else More) && Inv(k, m) && AtRest(m)
    ensures Owes(k, Resumed(Call(k, m, str[|str|..])), Stop, m, c, st, str[|str|..])
  {
  }
}
