/**
 The push-down machine inside `json_tokener_parse_ex`, one switch turn at a time.
 `Step` is one turn of the switch on the current character, `Call` is one whole
 call on a buffer. Module Tokener proves that the code's batched loops refine it.
 */
module TokenerMachine {
  import opened Basics
  import opened OrderedMap
  import opened JsonValue
  import opened Decimal

  datatype State =
    | EatWs | Start | Finish | NullLit | CommentStart | Comment | CommentEol | CommentEnd
    | StringS | StringEscape | EscapeUnicode | NeedEscape | NeedU | Boolean | NumberS
    | Array | ArrayAdd | ArraySep | FieldStart | ObjectField | FieldEnd
    | ObjectValue | ObjectValueAdd | ObjectSep | ArrayAfterSep | FieldStartAfterSep | Inf

  /**
   Broken stands for a machine outside the stack invariant, where the code would fail an
   assertion or use a field it never set; StepKeepsInv shows that it does not happen.
   */
  datatype Error =
    | Depth | ParseEof | ParseUnexpected | ParseNull | ParseBoolean | ParseNumber | ParseArray
    | ParseObjectKeyName | ParseObjectKeySep | ParseObjectValueSep | ParseString | ParseComment
    | Broken

  datatype Config = Config(maxDepth: nat, strict: bool, allowTrailing: bool)

  datatype Srec = Srec(state: State, saved: State, current: Json, field: Option<string>)

  /** The locals of the number case; they live for one call only. */
  datatype NumberLocals = NumberLocals(isExponent: bool, negOk: bool, posOk: bool, caseLen: nat)

  const NUMBER_START := NumberLocals(false, true, false, 0)

  /**
   The tokener between two turns. `below` holds the levels under the current one,
   so the depth is |below|. `obj` is the local that carries a finished child to its
   container; it and `num` hold their defaults outside the states that read them.
   */
  datatype Mach = Mach(below: seq<Srec>, top: Srec, pb: string, quote: char, ucs: nat, high: nat,
                       stPos: nat, isDouble: bool, num: NumberLocals, obj: Json)

  const LEVEL_RESET := Srec(EatWs, Start, Null, None)

  /** `json_tokener_reset`: the levels and the depth, but not the scratch fields. */
  function Reset(m: Mach): Mach {
    m.(below := [], top := LEVEL_RESET, num := NUMBER_START, obj := Null)
  }

  /** A new tokener (calloc leaves every scratch field zero). */
  const FRESH := Mach([], LEVEL_RESET, "", NUL, 0, 0, 0, false, NUMBER_START, Null)

  // ------------------------------------------------------------ characters

  predicate IsWs(c: char) {
    c == ' ' || c == '\t' || c == '\n' || c == '\r'
  }

  predicate IsHex(c: char) {
    '0' <= c <= '9' || 'A' <= c <= 'F' || 'a' <= c <= 'f'
  }

  /** `jt_hexdigit`. */
  function HexValue(c: char): (v: nat)
    requires IsHex(c)
    ensures v < 16
  {
    if c <= '9' then c as int - '0' as int else c as int % 8 + 9
  }

  function ToLower(c: char): char {
    if 'A' <= c <= 'Z' then (c as int + 32) as char else c
  }

  function ToLowerAll(s: string): string {
    seq(|s|, i requires 0 <= i < |s| => ToLower(s[i]))
  }

  /** `strncmp`, or `strncasecmp` when not strict, over the first `size` characters. */
  predicate LiteralMatches(k: Config, literal: string, pb: string, size: nat) {
    && size <= |literal| && size <= |pb|
    && (literal[..size] == pb[..size] || (!k.strict && ToLowerAll(literal[..size]) == ToLowerAll(pb[..size])))
  }

  function Min(a: nat, b: nat): nat {
    if a < b then a else b
  }

  /** What `strdup` keeps of a buffer. */
  function CString(s: string): (r: string)
    ensures NulFree(r) && r <= s
    ensures NulFree(s) ==> r == s
  {
    if s == "" || s[0] == NUL then "" else [s[0]] + CString(s[1..])
  }

  // ------------------------------------------------------------ unicode escapes

  const REPLACEMENT: string := [0xEF as char, 0xBF as char, 0xBD as char]

  /** `IS_HIGH_SURROGATE` and `IS_LOW_SURROGATE` look at bits 10 to 15 only. */
  predicate IsHighSurrogate(u: nat) {
    u / 0x400 % 64 == 54
  }

  predicate IsLowSurrogate(u: nat) {
    u / 0x400 % 64 == 55
  }

  function DecodePair(hi: nat, lo: nat): nat {
    hi % 0x400 * 0x400 + lo % 0x400 + 0x10000
  }

  function Pow16(n: nat): (p: nat)
    ensures p > 0
  {
    if n == 0 then 1 else 16 * Pow16(n - 1)
  }

  /** The bytes appended for a value that is no surrogate; the masks and ors touch disjoint bits. */
  function Utf8Bytes(u: nat): string {
    if u < 0x80 then [u as char]
    else if u < 0x800 then [(0xC0 + u / 0x40) as char, (0x80 + u % 0x40) as char]
    else if u < 0x10000 then
      [(0xE0 + u / 0x1000) as char, (0x80 + u / 0x40 % 0x40) as char, (0x80 + u % 0x40) as char]
    else if u < 0x110000 then
      [(0xF0 + u / 0x40000 % 8) as char, (0x80 + u / 0x1000 % 0x40) as char,
       (0x80 + u / 0x40 % 0x40) as char, (0x80 + u % 0x40) as char]
    else REPLACEMENT
  }

  /** The work done once four hexadecimal digits are in `ucs`. */
  function EscapeDone(m: Mach, unit: nat): Mach {
    var pair := m.high != 0 && IsLowSurrogate(unit);
    var u := if pair then DecodePair(m.high, unit) else unit;
    var pb := if m.high != 0 && !pair then m.pb + REPLACEMENT else m.pb;
    var m0 := m.(high := 0, stPos := 0, ucs := u);
    if u >= 0x800 && IsHighSurrogate(u) then
      m0.(pb := pb, high := u, ucs := 0, top := m.top.(state := NeedEscape))
    else
      var bytes := if u >= 0x800 && IsLowSurrogate(u) then REPLACEMENT else Utf8Bytes(u);
      m0.(pb := pb + bytes, top := m.top.(state := m.top.saved))
  }

  // ------------------------------------------------------------ numbers

  predicate NumberChar(m: Mach, c: char) {
    && c != NUL
    && (IsDigit(c) || (!m.num.isExponent && (c == 'e' || c == 'E')) || (m.num.negOk && c == '-')
        || (m.num.posOk && c == '+') || (!m.isDouble && c == '.'))
  }

  function NumberNext(m: Mach, c: char): Mach {
    var exp := c == 'e' || c == 'E';
    var sign := c == '.' || exp;
    m.(pb := m.pb + [c], isDouble := m.isDouble || sign,
       num := NumberLocals(m.num.isExponent || exp, sign, sign, m.num.caseLen + 1))
  }

  /** The locals rebuilt from the saved text when a call starts inside a number. */
  function IndexOf(s: string, c: char): (n: nat)
    ensures n <= |s|
    ensures n < |s| ==> s[n] == c
    ensures forall i :: 0 <= i < n ==> s[i] != c
  {
    if s == "" || s[0] == c then 0 else 1 + IndexOf(s[1..], c)
  }

  function Regenerate(pb: string): NumberLocals {
    var e := if IndexOf(pb, 'e') < |pb| then IndexOf(pb, 'e') else IndexOf(pb, 'E');
    if e < |pb| then NumberLocals(true, e == |pb| - 1, e == |pb| - 1, 0) else NUMBER_START
  }

  /** The non-strict trimming of a dangling exponent. */
  function TrimExponent(pb: string): string {
    if |pb| > 1 && (pb[|pb| - 1] == 'e' || pb[|pb| - 1] == 'E' || pb[|pb| - 1] == '-' ||
        pb[|pb| - 1] == '+') then TrimExponent(pb[..|pb| - 1]) else pb
  }

  /** True when `strtod` consumes the whole of a text made of digits, signs, '.', 'e' and 'E'. */
  predicate StrtodConsumesAll(s: string) {
    var body := if s != "" && (s[0] == '-' || s[0] == '+') then s[1..] else s;
    var whole := DigitPrefix(body);
    var afterWhole := body[|whole|..];
    var point := afterWhole != "" && afterWhole[0] == '.';
    var frac := if point then DigitPrefix(afterWhole[1..]) else "";
    var rest := if point then afterWhole[1 + |frac|..] else afterWhole;
    && |whole| + |frac| > 0
    && (rest == "" || ((rest[0] == 'e' || rest[0] == 'E') && AllExponent(rest[1..])))
  }

  predicate AllExponent(s: string) {
    var body := if s != "" && (s[0] == '-' || s[0] == '+') then s[1..] else s;
    body != "" && AllDigits(body)
  }

  /** The value of a finished number token; None stands for json_tokener_error_parse_number. */
  function NumberValue(k: Config, pb: string, isDouble: bool): Option<Json> {
    if isDouble then
      if StrtodConsumesAll(pb) then Some(Double(pb)) else None
    else if pb != "" && pb[0] == '-' then
      match ParseInt64(pb)
      case NoDigits => None
      case Number(v, range) => if range && k.strict then None else Some(Int(v))
    else
      match ParseUInt64(pb)
      case NoDigits => None
      case Number(v, range) =>
        if range && k.strict then None
        else if v != 0 && pb != "" && pb[0] == '0' && k.strict then None
        else if v <= INT64_MAX then Some(Int(v))
        else Some(UInt(v))
  }

  // ------------------------------------------------------------ one turn

  /** What a turn of the switch does next: the same character again, the next one, or `goto out`. */
  datatype Turn = Redo(m: Mach) | Advance(m: Mach) | Halt(m: Mach, err: Option<Error>)

  function Goto(m: Mach, s: State): Mach {
    m.(top := m.top.(state := s))
  }

  function EatThen(m: Mach, s: State): Mach {
    m.(top := m.top.(state := EatWs, saved := s))
  }

  function Finished(m: Mach, v: Json): Mach {
    m.(top := m.top.(state := EatWs, saved := Finish, current := v))
  }

  function Push(m: Mach, waiting: State): Mach {
    m.(below := m.below + [m.top.(state := waiting)], top := LEVEL_RESET)
  }

  function StepStart(k: Config, m: Mach, c: char): Turn {
    if c == '{' then
      Advance(m.(top := m.top.(state := EatWs, saved := FieldStart, current := Obj([]))))
    else if c == '[' then
      Advance(m.(top := m.top.(state := EatWs, saved := Array, current := Arr([]))))
    else if (c == 'I' || c == 'i') then Redo(Goto(m, Inf).(pb := "", stPos := 0))
    else if (c == 'N' || c == 'n') then Redo(Goto(m, NullLit).(pb := "", stPos := 0))
    else if c == '\'' && k.strict then Halt(m, Some(ParseUnexpected))
    else if c == '\'' || c == '"' then Advance(Goto(m, StringS).(pb := "", quote := c))
    else if (c == 'T' || c == 't' || c == 'F' || c == 'f') then Redo(Goto(m, Boolean).(pb := "", stPos := 0))
    else if IsDigit(c) || c == '-' then
      Redo(Goto(m, NumberS).(pb := "", isDouble := false, num := NUMBER_START))
    else Halt(m, Some(ParseUnexpected))
  }

  function StepInf(k: Config, m: Mach, c: char): Turn {
    if m.stPos < 8 then
      if c == "Infinity"[m.stPos] || (!k.strict && c == "iNFINITY"[m.stPos])
      then Advance(m.(stPos := m.stPos + 1))
      else Halt(m, Some(ParseUnexpected))
    else
      var negative := m.pb != "" && m.pb[0] == '-';
      Redo(Finished(m, Double(if negative then "-Infinity" else "Infinity")))
  }

  function StepNull(k: Config, m: Mach, c: char): Turn {
    var m' := m.(pb := m.pb + [c]);
    if LiteralMatches(k, "null", m'.pb, Min(m.stPos + 1, 4)) then
      if m.stPos == 4 then Redo(Finished(m', Null)) else Advance(m'.(stPos := m.stPos + 1))
    else if LiteralMatches(k, "NaN", m'.pb, Min(m.stPos + 1, 3)) then
      if m.stPos == 3 then Redo(Finished(m', Double("NaN"))) else Advance(m'.(stPos := m.stPos + 1))
    else Halt(m', Some(ParseNull))
  }

  function StepBoolean(k: Config, m: Mach, c: char): Turn {
    var m' := m.(pb := m.pb + [c]);
    if LiteralMatches(k, "true", m'.pb, Min(m.stPos + 1, 4)) then
      if m.stPos == 4 then Redo(Finished(m', Bool(true))) else Advance(m'.(stPos := m.stPos + 1))
    else if LiteralMatches(k, "false", m'.pb, Min(m.stPos + 1, 5)) then
      if m.stPos == 5 then Redo(Finished(m', Bool(false))) else Advance(m'.(stPos := m.stPos + 1))
    else Halt(m', Some(ParseBoolean))
  }

  function StepComment(m: Mach, c: char): Turn {
    match m.top.state
    case CommentStart =>
      var m' := m.(pb := m.pb + [c]);
      if c == '*' then Advance(Goto(m', Comment))
      else if c == '/' then Advance(Goto(m', CommentEol))
      else Halt(m, Some(ParseComment))
    case Comment =>
      Advance(Goto(m.(pb := m.pb + [c]), if c == '*' then CommentEnd else Comment))
    case CommentEol =>
      if c == '\n' then Advance(Goto(m, EatWs)) else Advance(m.(pb := m.pb + [c]))
    case _ =>
      Advance(Goto(m.(pb := m.pb + [c]), if c == '/' then EatWs else Comment))
  }

  function StepString(m: Mach, c: char): Turn {
    if c == m.quote then Advance(Finished(m, Str(m.pb)))
    else if c == '\\' then Advance(m.(top := m.top.(state := StringEscape, saved := StringS)))
    else Advance(m.(pb := m.pb + [c]))
  }

  function StepField(m: Mach, c: char): Turn {
    if c == m.quote then
      Advance(m.(top := m.top.(state := EatWs, saved := FieldEnd, field := Some(CString(m.pb)))))
    else if c == '\\' then Advance(m.(top := m.top.(state := StringEscape, saved := ObjectField)))
    else Advance(m.(pb := m.pb + [c]))
  }

  /** The character an escape such as \n stands for; None for an invalid one (and for \u). */
  function SimpleEscape(c: char): Option<char> {
    if c == '"' || c == '\\' || c == '/' then Some(c)
    else if c == 'b' then Some(8 as char)
    else if c == 'n' then Some('\n')
    else if c == 'r' then Some('\r')
    else if c == 't' then Some('\t')
    else if c == 'f' then Some(12 as char)
    else None
  }

  function StepEscape(m: Mach, c: char): Turn {
    if c == 'u' then Advance(Goto(m, EscapeUnicode).(ucs := 0, stPos := 0))
    else
      match SimpleEscape(c)
      case Some(d) => Advance(Goto(m, m.top.saved).(pb := m.pb + [d]))
      case None => Halt(m, Some(ParseString))
  }

  function StepUnicode(m: Mach, c: char): Turn {
    if !IsHex(c) then Halt(m, Some(ParseString))
    else if m.stPos >= 4 then Halt(m, Some(Broken))
    else
      var ucs := m.ucs + HexValue(c) * Pow16(3 - m.stPos);
      if m.stPos + 1 < 4 then Advance(m.(ucs := ucs, stPos := m.stPos + 1))
      else Advance(EscapeDone(m, ucs))
  }

  function StepNeedEscape(m: Mach, c: char): Turn {
    if c == '\\' then Advance(Goto(m, NeedU))
    else if m.top.saved != StringS && m.top.saved != ObjectField then Halt(m, Some(Broken))
    else Redo(Goto(m, m.top.saved).(pb := m.pb + REPLACEMENT, high := 0, ucs := 0, stPos := 0))
  }

  function StepNeedU(m: Mach, c: char): Turn {
    if c == 'u' then Advance(Goto(m, EscapeUnicode))
    else Redo(Goto(m, StringEscape).(pb := m.pb + REPLACEMENT, high := 0, ucs := 0, stPos := 0))
  }

  predicate EndsNumber(c: char) {
    (c == ',' || c == ']' || c == '}' || c == '/' || c == 'I' || c == 'i') || IsWs(c)
  }

  /** Turning the finished text of a number into a value. */
  function NumberResult(m: Mach, v: Option<Json>): Turn {
    match v
    case Some(n) => Redo(Finished(m, n))
    case None => Halt(m, Some(ParseNumber))
  }

  /** The code after the digits loop, when `c` does not belong to the number. */
  function NumberEnd(k: Config, m: Mach, c: char): (t: Turn)
    ensures t.Redo? ==> m.pb != ""
  {
    var m' := m.(num := NUMBER_START);
    if |m.below| > 0 && !EndsNumber(c) then Halt(m', Some(ParseNumber))
    else if m.pb != "" && m.pb[0] == '-' && m.num.caseLen <= 1 && (c == 'i' || c == 'I') then
      Redo(Goto(m', Inf).(stPos := 0))
    else
      var pb := if m.isDouble && !k.strict then TrimExponent(m.pb) else m.pb;
      NumberResult(m'.(pb := pb), NumberValue(k, pb, m.isDouble))
  }

  function StepNumber(k: Config, m: Mach, c: char): Turn {
    if NumberChar(m, c) then Advance(NumberNext(m, c)) else NumberEnd(k, m, c)
  }

  function StepArray(k: Config, m: Mach, c: char): Turn {
    if c == ']' then
      if m.top.state == ArrayAfterSep && k.strict then Halt(m, Some(ParseUnexpected))
      else Advance(EatThen(m, Finish))
    else if |m.below| >= k.maxDepth - 1 then Halt(m, Some(Depth))
    else Redo(Push(m, ArrayAdd))
  }

  function StepArraySep(m: Mach, c: char): Turn {
    if c == ']' then Advance(EatThen(m, Finish))
    else if c == ',' then Advance(EatThen(m, ArrayAfterSep))
    else Halt(m, Some(ParseArray))
  }

  function StepFieldStart(k: Config, m: Mach, c: char): Turn {
    if c == '}' then
      if m.top.state == FieldStartAfterSep && k.strict then Halt(m, Some(ParseUnexpected))
      else Advance(EatThen(m, Finish))
    else if c == '"' || c == '\'' then Advance(Goto(m, ObjectField).(quote := c, pb := ""))
    else Halt(m, Some(ParseObjectKeyName))
  }

  function StepObjectSep(m: Mach, c: char): Turn {
    if c == '}' then Advance(EatThen(m, Finish))
    else if c == ',' then Advance(EatThen(m, FieldStartAfterSep))
    else Halt(m, Some(ParseObjectValueSep))
  }

  function StepFinish(m: Mach): Turn {
    if m.below == [] then Halt(m, None)
    else
      var last := |m.below| - 1;
      // a level that a success left open was reset, and the child is dropped
      if m.below[last] == LEVEL_RESET then Redo(m.(below := m.below[..last], top := LEVEL_RESET))
      else if m.below[last].state != ArrayAdd && m.below[last].state != ObjectValueAdd then Halt(m, Some(Broken))
      else Redo(m.(below := m.below[..last], top := m.below[last], obj := m.top.current))
  }

  function StepEatWs(k: Config, m: Mach, c: char): Turn {
    if IsWs(c) then Advance(m)
    else if c == '/' && !k.strict then Advance(Goto(m, CommentStart).(pb := [c]))
    else if m.top.saved == EatWs then Halt(m, Some(Broken))
    else Redo(Goto(m, m.top.saved))
  }

  function StepArrayAdd(m: Mach): Turn {
    if !m.top.current.Arr? then Halt(m, Some(Broken))
    else
      var child := Arr(m.top.current.elems + [m.obj]);
      Redo(m.(top := m.top.(state := EatWs, saved := ArraySep, current := child), obj := Null))
  }

  function StepFieldEnd(m: Mach, c: char): Turn {
    if c == ':' then Advance(EatThen(m, ObjectValue)) else Halt(m, Some(ParseObjectKeySep))
  }

  function StepObjectValue(k: Config, m: Mach): Turn {
    if |m.below| >= k.maxDepth - 1 then Halt(m, Some(Depth)) else Redo(Push(m, ObjectValueAdd))
  }

  function StepObjectValueAdd(m: Mach): Turn {
    if !m.top.current.Obj? || m.top.field.None? then Halt(m, Some(Broken))
    else
      var fields := Put(m.top.current.fields, m.top.field.value, m.obj);
      Redo(m.(top := Srec(EatWs, ObjectSep, Obj(fields), None), obj := Null))
  }

  // ------------------------------------------------------------ termination

  /** A literal or number of which a character has been read. */
  predicate Begun(m: Mach, s: State) {
    if s == NumberS then m.pb != "" else m.stPos > 0
  }

  function StateRank(m: Mach, s: State): nat {
    match s
    case Inf => if Begun(m, s) then 6 else 2
    case NullLit => if Begun(m, s) then 6 else 2
    case Boolean => if Begun(m, s) then 6 else 2
    case NumberS => if Begun(m, s) then 6 else 2
    case Finish => 5
    case Array => 4
    case ArrayAfterSep => 4
    case ObjectValue => 4
    case Start => 3
    case ArrayAdd => 1
    case ObjectValueAdd => 1
    case NeedEscape => 1
    case NeedU => 1
    case _ => 0
  }

  /** A turn that reads no character lowers this; eatws sits just above the state it will return to. */
  function Rank(m: Mach): nat {
    if m.top.state == EatWs then 2 * StateRank(m, m.top.saved) + 1 else 2 * StateRank(m, m.top.state)
  }

  predicate LiteralState(s: State) {
    s == Inf || s == NullLit || s == Boolean || s == NumberS
  }

  predicate BlankState(s: State) {
    s == EatWs || s == Start || s == CommentStart || s == Comment || s == CommentEol || s == CommentEnd
  }

  predicate TextState(s: State) {
    s == StringS || s == ObjectField || s == StringEscape || s == EscapeUnicode || s == NeedEscape || s == NeedU
  }

  predicate StackState(s: State) {
    s == Finish || s == Array || s == ArrayAfterSep || s == ArrayAdd || s == ObjectValue || s == ObjectValueAdd
  }

  /** Turns in literals and numbers. */
  function StepLiteral(k: Config, m: Mach, c: char): (t: Turn)
    requires LiteralState(m.top.state)
    ensures t.Redo? ==> Rank(t.m) < Rank(m)
  {
    match m.top.state
    case Inf => StepInf(k, m, c)
    case NullLit => StepNull(k, m, c)
    case Boolean => StepBoolean(k, m, c)
    case NumberS => StepNumber(k, m, c)
  }

  /** Turns in white space and comments, and at the start of a value. */
  function StepBlank(k: Config, m: Mach, c: char): (t: Turn)
    requires BlankState(m.top.state)
    ensures t.Redo? ==> Rank(t.m) < Rank(m)
  {
    match m.top.state
    case EatWs => StepEatWs(k, m, c)
    case Start => StepStart(k, m, c)
    case CommentStart => StepComment(m, c)
    case Comment => StepComment(m, c)
    case CommentEol => StepComment(m, c)
    case CommentEnd => StepComment(m, c)
  }

  /** Turns inside quotation marks. */
  function StepText(k: Config, m: Mach, c: char): (t: Turn)
    requires TextState(m.top.state)
    ensures t.Redo? ==> Rank(t.m) < Rank(m)
  {
    match m.top.state
    case StringS => StepString(m, c)
    case ObjectField => StepField(m, c)
    case StringEscape => StepEscape(m, c)
    case EscapeUnicode => StepUnicode(m, c)
    case NeedEscape => StepNeedEscape(m, c)
    case NeedU => StepNeedU(m, c)
  }

  /** Turns that push or pop a level, or add a finished child. */
  function StepStack(k: Config, m: Mach, c: char): (t: Turn)
    requires StackState(m.top.state)
    ensures t.Redo? ==> Rank(t.m) < Rank(m)
  {
    match m.top.state
    case Finish => StepFinish(m)
    case Array => StepArray(k, m, c)
    case ArrayAfterSep => StepArray(k, m, c)
    case ArrayAdd => StepArrayAdd(m)
    case ObjectValue => StepObjectValue(k, m)
    case ObjectValueAdd => StepObjectValueAdd(m)
  }

  /** Turns between the parts of an array or object. */
  function StepPunctuation(k: Config, m: Mach, c: char): (t: Turn)
    requires !LiteralState(m.top.state) && !BlankState(m.top.state) && !TextState(m.top.state) &&
        !StackState(m.top.state)
    ensures t.Redo? ==> Rank(t.m) < Rank(m)
  {
    match m.top.state
    case ArraySep => StepArraySep(m, c)
    case FieldStart => StepFieldStart(k, m, c)
    case FieldStartAfterSep => StepFieldStart(k, m, c)
    case FieldEnd => StepFieldEnd(m, c)
    case ObjectSep => StepObjectSep(m, c)
  }

  /** One turn of the switch; `goto redo_char` lowers the rank. */
  function Step(k: Config, m: Mach, c: char): (t: Turn)
    ensures t.Redo? ==> Rank(t.m) < Rank(m)
  {
    if LiteralState(m.top.state) then StepLiteral(k, m, c)
    else if BlankState(m.top.state) then StepBlank(k, m, c)
    else if TextState(m.top.state) then StepText(k, m, c)
    else if StackState(m.top.state) then StepStack(k, m, c)
    else StepPunctuation(k, m, c)
  }

  // ------------------------------------------------------------ the stack invariant

  predicate InArray(s: State) {
    s == Array || s == ArrayAfterSep || s == ArraySep || s == ArrayAdd
  }

  predicate HasField(s: State) {
    s == FieldEnd || s == ObjectValue || s == ObjectValueAdd
  }

  predicate InObject(s: State) {
    s == FieldStart || s == FieldStartAfterSep || s == ObjectField || s == ObjectSep || HasField(s)
  }

  /** A level in state `s` has the container, and the pending field name, that the state works on. */
  predicate LevelFits(s: State, r: Srec) {
    && (InArray(s) ==> r.current.Arr?)
    && (InObject(s) ==> r.current.Obj?)
    && (HasField(s) ==> r.field.Some?)
  }

  /** A level under the current one waits to add a finished child to a container of the right kind. */
  predicate Waiting(r: Srec) {
    (r.state == ArrayAdd || r.state == ObjectValueAdd) && LevelFits(r.state, r)
  }

  /** The states eatws can return to. */
  predicate AfterWhiteSpace(s: State) {
    s == Start || s == Finish || s == Array || s == ArrayAfterSep || s == ArraySep || s == FieldStart
    || s == FieldStartAfterSep || s == FieldEnd || s == ObjectValue || s == ObjectSep
  }

  /** The digits not yet read are still zero, so `|=` in the source adds. */
  predicate UcsOk(m: Mach) {
    m.stPos < 4 && m.ucs % Pow16(4 - m.stPos) == 0 && m.ucs < 0x10000
  }

  predicate EatingFits(r: Srec) {
    AfterWhiteSpace(r.saved) && LevelFits(r.saved, r)
  }

  predicate EscapeFits(r: Srec) {
    r.saved == StringS || (r.saved == ObjectField && r.current.Obj?)
  }

  predicate TopFits(m: Mach) {
    match m.top.state
    case EatWs => EatingFits(m.top)
    case CommentStart => EatingFits(m.top)
    case Comment => EatingFits(m.top)
    case CommentEol => EatingFits(m.top)
    case CommentEnd => EatingFits(m.top)
    case StringEscape => EscapeFits(m.top)
    case EscapeUnicode => EscapeFits(m.top) && UcsOk(m)
    case NeedEscape => EscapeFits(m.top) && m.stPos == 0 && m.ucs == 0
    case NeedU => EscapeFits(m.top) && m.stPos == 0 && m.ucs == 0
    case NullLit => |m.pb| == m.stPos
    case Boolean => |m.pb| == m.stPos
    case Inf => m.stPos <= 8
    case s => LevelFits(s, m.top)
  }

  /** The call-local values are set only in the states that read them. */
  predicate LocalsFit(m: Mach) {
    && (m.top.state == NumberS || m.num == NUMBER_START)
    && (m.top.state == ArrayAdd || m.top.state == ObjectValueAdd || m.obj == Null)
  }

  /** Every level under the current one waits for a child, or was reset by a success that left it open. */
  predicate LevelsWait(k: Config, below: seq<Srec>) {
    && |below| < k.maxDepth
    && forall i :: 0 <= i < |below| ==> Waiting(below[i]) || below[i] == LEVEL_RESET
  }

  /** No success left a level open: every finished child will be added to a container. */
  predicate AllWait(below: seq<Srec>) {
    forall i :: 0 <= i < |below| ==> Waiting(below[i])
  }

  predicate Inv(k: Config, m: Mach) {
    LevelsWait(k, m.below) && TopFits(m) && LocalsFit(m)
  }

  /** Between characters the machine is in none of the states that are only passed through. */
  predicate AtRest(m: Mach) {
    !(m.top.state.Finish? || m.top.state.ArrayAdd? || m.top.state.ObjectValueAdd?)
  }

  lemma DigitFits(ucs: nat, h: nat, p: nat)
    requires h < 16 && ucs < 0x10000 && (p == 1 || p == 16 || p == 256 || p == 4096) && ucs % (16 * p) == 0
    ensures ucs + h * p < 0x10000 && (ucs + h * p) % p == 0
  {
    var q := ucs / (16 * p);
    assert ucs == 16 * p * q;
    assert ucs + h * p == (16 * q + h) * p;
  }

  lemma UcsDigit(m: Mach, c: char)
    requires UcsOk(m) && IsHex(c)
    ensures var ucs := m.ucs + HexValue(c) * Pow16(3 - m.stPos);
            ucs < 0x10000 && ucs % Pow16(3 - m.stPos) == 0
  {
    assert Pow16(0) == 1 && Pow16(1) == 16 && Pow16(2) == 256 && Pow16(3) == 4096 && Pow16(4) == 65536;
    DigitFits(m.ucs, HexValue(c), Pow16(3 - m.stPos));
  }

  /**
   What every turn owes: the invariant (unless it stops with an error, which is then never
   Broken), rest when it reads, and an empty text whenever a number begins. Only the end of
   a value stops without an error or hands a child to its container.
   */
  predicate TurnOk(k: Config, m: Mach, t: Turn) {
    match t
    case Redo(m') =>
      && Inv(k, m') && NumberStarts(m, m') && (m.top.state == Finish || !Adding(m'.top.state))
      && (AllWait(m.below) ==> AllWait(m'.below))
    case Advance(m') => Inv(k, m') && NumberStarts(m, m') && AtRest(m') && m'.below == m.below
    case Halt(m', None) => Inv(k, m') && m.top.state == Finish
    case Halt(_, Some(e)) => e != Broken
  }

  predicate Adding(s: State) {
    s == ArrayAdd || s == ObjectValueAdd
  }

  predicate NumberStarts(m: Mach, m': Mach) {
    m'.top.state == NumberS && m.top.state != NumberS ==> m'.pb == "" && m'.num == NUMBER_START
  }

  lemma EatWsTurnOk(k: Config, m: Mach, c: char)
    requires Inv(k, m) && (m.top.state.EatWs?)
    ensures TurnOk(k, m, StepEatWs(k, m, c))
  {
    hide LevelsWait, AllWait;
  }

  lemma StartTurnOk(k: Config, m: Mach, c: char)
    requires Inv(k, m) && (m.top.state.Start?)
    ensures TurnOk(k, m, StepStart(k, m, c))
  {
    hide LevelsWait, AllWait;
  }

  lemma FinishTurnOk(k: Config, m: Mach, c: char)
    requires Inv(k, m) && (m.top.state.Finish?)
    ensures TurnOk(k, m, StepFinish(m))
  {
    hide LevelsWait, AllWait;
    if m.below != [] {
      PopFits(k, m.below);
    }
  }

  lemma InfTurnOk(k: Config, m: Mach, c: char)
    requires Inv(k, m) && (m.top.state.Inf?)
    ensures TurnOk(k, m, StepInf(k, m, c))
  {
    hide LevelsWait, AllWait;
  }

  lemma NullTurnOk(k: Config, m: Mach, c: char)
    requires Inv(k, m) && (m.top.state.NullLit?)
    ensures TurnOk(k, m, StepNull(k, m, c))
  {
    hide LevelsWait, AllWait;
  }

  lemma BooleanTurnOk(k: Config, m: Mach, c: char)
    requires Inv(k, m) && (m.top.state.Boolean?)
    ensures TurnOk(k, m, StepBoolean(k, m, c))
  {
    hide LevelsWait, AllWait;
  }

  lemma CommentTurnOk(k: Config, m: Mach, c: char)
    requires Inv(k, m) && (m.top.state.CommentStart? || m.top.state.Comment? || m.top.state.CommentEol? ||
        m.top.state.CommentEnd?)
    ensures TurnOk(k, m, StepComment(m, c))
  {
    hide LevelsWait, AllWait;
  }

  lemma StringTurnOk(k: Config, m: Mach, c: char)
    requires Inv(k, m) && (m.top.state.StringS?)
    ensures TurnOk(k, m, StepString(m, c))
  {
    hide LevelsWait, AllWait;
  }

  lemma EscapeTurnOk(k: Config, m: Mach, c: char)
    requires Inv(k, m) && (m.top.state.StringEscape?)
    ensures TurnOk(k, m, StepEscape(m, c))
  {
    hide LevelsWait, AllWait;
  }

  lemma EscapeDoneFits(k: Config, m: Mach, unit: nat)
    requires Inv(k, m) && m.top.state == EscapeUnicode && unit < 0x10000
    ensures Inv(k, EscapeDone(m, unit)) && AtRest(EscapeDone(m, unit))
    ensures EscapeDone(m, unit).top.state != NumberS && EscapeDone(m, unit).below == m.below
  {
    hide Utf8Bytes, IsHighSurrogate, IsLowSurrogate, DecodePair, UcsOk;
  }

  lemma UnicodeTurnOk(k: Config, m: Mach, c: char)
    requires Inv(k, m) && (m.top.state.EscapeUnicode?)
    ensures TurnOk(k, m, StepUnicode(m, c))
  {
    hide LevelsWait, AllWait, EscapeDone, LevelFits, AfterWhiteSpace, HexValue, Pow16, IsHex;
    if IsHex(c) {
      UcsDigit(m, c);
      EscapeDoneFits(k, m, m.ucs + HexValue(c) * Pow16(3 - m.stPos));
    }
  }

  lemma NeedEscapeTurnOk(k: Config, m: Mach, c: char)
    requires Inv(k, m) && (m.top.state.NeedEscape?)
    ensures TurnOk(k, m, StepNeedEscape(m, c))
  {
    hide LevelsWait, AllWait;
  }

  lemma NeedUTurnOk(k: Config, m: Mach, c: char)
    requires Inv(k, m) && (m.top.state.NeedU?)
    ensures TurnOk(k, m, StepNeedU(m, c))
  {
    hide LevelsWait, AllWait;
  }

  lemma NumberResultTurnOk(k: Config, m: Mach, v: Option<Json>)
    requires LevelsWait(k, m.below) && m.num == NUMBER_START && m.obj == Null && m.top.state == NumberS
    ensures TurnOk(k, m, NumberResult(m, v))
  {
    hide LevelsWait, AllWait;
  }

  lemma NumberEndTurnOk(k: Config, m: Mach, c: char)
    requires Inv(k, m) && m.top.state.NumberS?
    ensures TurnOk(k, m, NumberEnd(k, m, c))
  {
    hide LevelsWait, AllWait, NumberValue, TrimExponent, EndsNumber;
    var pb := if m.isDouble && !k.strict then TrimExponent(m.pb) else m.pb;
    NumberResultTurnOk(k, m.(num := NUMBER_START, pb := pb), NumberValue(k, pb, m.isDouble));
  }

  lemma NumberTurnOk(k: Config, m: Mach, c: char)
    requires Inv(k, m) && (m.top.state.NumberS?)
    ensures TurnOk(k, m, StepNumber(k, m, c))
  {
    hide LevelsWait, AllWait;
    if !NumberChar(m, c) {
      NumberEndTurnOk(k, m, c);
    }
  }

  lemma PushFits(k: Config, m: Mach, waiting: State)
    requires LevelsWait(k, m.below) && |m.below| < k.maxDepth - 1 && Waiting(m.top.(state := waiting))
    ensures LevelsWait(k, Push(m, waiting).below)
    ensures AllWait(m.below) ==> AllWait(Push(m, waiting).below)
  {
  }

  lemma PopFits(k: Config, below: seq<Srec>)
    requires LevelsWait(k, below) && below != []
    ensures LevelsWait(k, below[..|below| - 1])
    ensures Waiting(below[|below| - 1]) || below[|below| - 1] == LEVEL_RESET
    ensures AllWait(below) ==> AllWait(below[..|below| - 1])
  {
  }

  lemma ArrayTurnOk(k: Config, m: Mach, c: char)
    requires Inv(k, m) && (m.top.state.Array? || m.top.state.ArrayAfterSep?)
    ensures TurnOk(k, m, StepArray(k, m, c))
  {
    hide LevelsWait, AllWait;
    if c != ']' && |m.below| < k.maxDepth - 1 {
      PushFits(k, m, ArrayAdd);
    }
  }

  lemma ArrayAddTurnOk(k: Config, m: Mach, c: char)
    requires Inv(k, m) && (m.top.state.ArrayAdd?)
    ensures TurnOk(k, m, StepArrayAdd(m))
  {
    hide LevelsWait, AllWait;
  }

  lemma ArraySepTurnOk(k: Config, m: Mach, c: char)
    requires Inv(k, m) && (m.top.state.ArraySep?)
    ensures TurnOk(k, m, StepArraySep(m, c))
  {
    hide LevelsWait, AllWait;
  }

  lemma FieldStartTurnOk(k: Config, m: Mach, c: char)
    requires Inv(k, m) && (m.top.state.FieldStart? || m.top.state.FieldStartAfterSep?)
    ensures TurnOk(k, m, StepFieldStart(k, m, c))
  {
    hide LevelsWait, AllWait;
  }

  lemma FieldTurnOk(k: Config, m: Mach, c: char)
    requires Inv(k, m) && (m.top.state.ObjectField?)
    ensures TurnOk(k, m, StepField(m, c))
  {
    hide LevelsWait, AllWait;
  }

  lemma FieldEndTurnOk(k: Config, m: Mach, c: char)
    requires Inv(k, m) && (m.top.state.FieldEnd?)
    ensures TurnOk(k, m, StepFieldEnd(m, c))
  {
    hide LevelsWait, AllWait;
  }

  lemma ObjectValueTurnOk(k: Config, m: Mach, c: char)
    requires Inv(k, m) && (m.top.state.ObjectValue?)
    ensures TurnOk(k, m, StepObjectValue(k, m))
  {
    hide LevelsWait, AllWait;
    if |m.below| < k.maxDepth - 1 {
      PushFits(k, m, ObjectValueAdd);
    }
  }

  lemma ObjectValueAddTurnOk(k: Config, m: Mach, c: char)
    requires Inv(k, m) && (m.top.state.ObjectValueAdd?)
    ensures TurnOk(k, m, StepObjectValueAdd(m))
  {
    hide LevelsWait, AllWait;
  }

  lemma ObjectSepTurnOk(k: Config, m: Mach, c: char)
    requires Inv(k, m) && (m.top.state.ObjectSep?)
    ensures TurnOk(k, m, StepObjectSep(m, c))
  {
    hide LevelsWait, AllWait;
  }

  /** Every turn keeps the stack invariant. */
  lemma StepKeepsInv(k: Config, m: Mach, c: char)
    requires Inv(k, m)
    ensures TurnOk(k, m, Step(k, m, c))
  {
    hide Inv, TurnOk, StepStart, StepInf, StepNull, StepBoolean, StepComment, StepString, StepField, StepEscape,
        StepUnicode, StepNeedEscape, StepNeedU, StepNumber, StepArray, StepArraySep, StepFieldStart, StepObjectSep,
        StepFinish, StepEatWs, StepArrayAdd, StepFieldEnd, StepObjectValue, StepObjectValueAdd;
    match m.top.state
    case EatWs => EatWsTurnOk(k, m, c);
    case Start => StartTurnOk(k, m, c);
    case Finish => FinishTurnOk(k, m, c);
    case Inf => InfTurnOk(k, m, c);
    case NullLit => NullTurnOk(k, m, c);
    case Boolean => BooleanTurnOk(k, m, c);
    case CommentStart => CommentTurnOk(k, m, c);
    case Comment => CommentTurnOk(k, m, c);
    case CommentEol => CommentTurnOk(k, m, c);
    case CommentEnd => CommentTurnOk(k, m, c);
    case StringS => StringTurnOk(k, m, c);
    case StringEscape => EscapeTurnOk(k, m, c);
    case EscapeUnicode => UnicodeTurnOk(k, m, c);
    case NeedEscape => NeedEscapeTurnOk(k, m, c);
    case NeedU => NeedUTurnOk(k, m, c);
    case NumberS => NumberTurnOk(k, m, c);
    case Array => ArrayTurnOk(k, m, c);
    case ArrayAfterSep => ArrayTurnOk(k, m, c);
    case ArrayAdd => ArrayAddTurnOk(k, m, c);
    case ArraySep => ArraySepTurnOk(k, m, c);
    case FieldStart => FieldStartTurnOk(k, m, c);
    case FieldStartAfterSep => FieldStartTurnOk(k, m, c);
    case ObjectField => FieldTurnOk(k, m, c);
    case FieldEnd => FieldEndTurnOk(k, m, c);
    case ObjectValue => ObjectValueTurnOk(k, m, c);
    case ObjectValueAdd => ObjectValueAddTurnOk(k, m, c);
    case ObjectSep => ObjectSepTurnOk(k, m, c);
  }

  // ------------------------------------------------------------ one call

  /**
   The result of one call: a value, the tokener afterwards and the text not read; a request
   for more text; or an error and the text not read. The state after an error is not kept:
   the tokener must then be reset before it is used again.
   */
  datatype Outcome = Ok(value: Json, after: Mach, rest: string) | Continue(at: Mach) | Fail(err: Error, rest: string)

  /** After a value every level is reset, but the depth is left where it was. */
  function ResetLevels(m: Mach): Mach {
    m.(below := seq(|m.below|, _ => LEVEL_RESET), top := LEVEL_RESET, num := NUMBER_START, obj := Null)
  }

  /** The code after `out:`; `c` is the last character looked at. */
  function Out(k: Config, m: Mach, c: char, err: Option<Error>, rest: string): Outcome {
    var e1 := if c != NUL && m.top.state == Finish && m.below == [] && k.strict && !k.allowTrailing
              then Some(ParseUnexpected) else err;
    var e2 := if c == NUL && m.top.state != Finish && m.top.saved != Finish then Some(ParseEof) else e1;
    match e2
    case Some(e) => Fail(e, rest)
    case None => Ok(m.top.current, ResetLevels(m), rest)
  }

  /** A whole value has been read and only white space may follow. */
  predicate Complete(m: Mach) {
    m.below == [] && m.top.state == EatWs && m.top.saved == Finish
  }

  /** PEEK_CHAR at the end of the buffer. */
  function AtEnd(m: Mach): Outcome {
    if Complete(m)
    then Ok(m.top.current, ResetLevels(m), "") else Continue(m)
  }

  /** The parse loop from machine `m` over the unread text `s`. */
  function Call(k: Config, m: Mach, s: string): Outcome
    decreases |s|, Rank(m)
  {
    if s == "" then AtEnd(m)
    else
      match Step(k, m, s[0])
      case Redo(m') => Call(k, m', s)
      case Advance(m') => if s[0] == NUL then Out(k, m', NUL, None, s[1..]) else Call(k, m', s[1..])
      case Halt(m', e) => Out(k, m', s[0], e, s)
  }

  /** The state of a tokener when a call begins: only a number token must rebuild its locals. */
  function Resume(m: Mach): Mach {
    if m.top.state == NumberS then m.(num := Regenerate(m.pb)) else m
  }

  /** A machine that asks for more text, with the locals the next call will start from. */
  function Resumed(o: Outcome): Outcome {
    match o
    case Continue(m) => Continue(Resume(m))
    case _ => o
  }

  /** `json_tokener_parse_ex` on a buffer. */
  function Parse(k: Config, m: Mach, s: string): Outcome {
    Call(k, Resume(m), s)
  }

  /** `json_tokener_parse_verbose`: a new tokener, and the text up to and including its NUL. */
  function ParseText(k: Config, s: string): Outcome {
    Parse(k, FRESH, s + [NUL])
  }
}
