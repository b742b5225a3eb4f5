/**
 What texts are JSON: the grammar of RFC 8259, the wider one of strict parsing, and the still wider one
 of the default mode. All three are read by recursive descent, with no state but the text that is left.
 */
module JsonGrammar {
  import opened Basics
  import opened OrderedMap
  import opened JsonValue
  import opened Decimal
  import opened TokenerMachine
  import opened StringLiteral
  import opened RfcNumbers

  datatype Mode = Rfc | Strict | Lenient

  /**
   What was read and the text behind it; or, of a text that ends in a comment behind a finished value,
   that value, whatever was open around it.
   */
  datatype Got<T> = Nope | Got(val: T, rest: string) | Cut(last: T)

  // ------------------------------------------------------------ white space (section 2) and comments

  predicate Blank(c: char) {
    c == ' ' || c == '\t' || c == '\n' || c == '\r'
  }

  /** The text behind white space and comments, or why there is none. */
  datatype Gap = Past(rest: string) | Unclosed | NoComment

  /** Behind a block comment. Characters after a star are taken in pairs, so that "**" hides a star. */
  function BlockEnd(s: string): (r: Option<string>)
    ensures r.Some? ==> |r.value| <= |s| && (NulFree(s) ==> NulFree(r.value))
  {
    if |s| < 2 then None
    else if s[0] != '*' then BlockEnd(s[1..])
    else if s[1] == '/' then Some(s[2..])
    else BlockEnd(s[2..])
  }

  function LineEnd(s: string): (r: Option<string>)
    ensures r.Some? ==> |r.value| <= |s| && (NulFree(s) ==> NulFree(r.value))
  {
    if s == "" then None else if s[0] == '\n' then Some(s[1..]) else LineEnd(s[1..])
  }

  function Skip(mode: Mode, s: string): (g: Gap)
    ensures g.Past? ==> |g.rest| <= |s| && (NulFree(s) ==> NulFree(g.rest))
    ensures g.Past? && g.rest != "" ==> !Blank(g.rest[0]) && (mode == Lenient ==> g.rest[0] != '/')
    ensures mode != Lenient ==> g.Past?
    decreases |s|
  {
    if s == "" then Past("")
    else if Blank(s[0]) then Skip(mode, s[1..])
    else if mode != Lenient || s[0] != '/' then Past(s)
    else if |s| >= 2 && (s[1] == '*' || s[1] == '/') then
      var t := if s[1] == '*' then BlockEnd(s[2..]) else LineEnd(s[2..]);
      if t.None? then Unclosed else Skip(mode, t.value)
    else NoComment
  }

  /** A value and the gap behind it. */
  function Gapped(mode: Mode, g: Got<Json>): (r: Got<Json>)
    ensures r.Got? ==> g.Got? && |r.rest| <= |g.rest| && (NulFree(g.rest) ==> NulFree(r.rest))
    ensures r.Cut? && mode != Lenient ==> g.Cut?
  {
    if !g.Got? then g
    else
      match Skip(mode, g.rest)
      case Past(u) => Got(g.val, u)
      case Unclosed => Cut(g.val)
      case NoComment => Nope
  }

  // ------------------------------------------------------------ strings (section 7)

  predicate StartsUnit(s: string) {
    |s| >= 6 && s[0] == '\\' && s[1] == 'u' && IsHex(s[2]) && IsHex(s[3]) && IsHex(s[4]) && IsHex(s[5])
  }

  /** The item a text inside a string begins with. */
  function FirstItem(mode: Mode, s: string): (i: Option<Item>)
    requires s != ""
    ensures i.Some? ==> ItemText(i.value) <= s && ItemText(i.value) != ""
  {
    if s[0] != '\\' then if mode == Rfc && s[0] < ' ' then None else Some(Raw(s[0]))
    else if StartsUnit(s) then Some(Unit(s[2], s[3], s[4], s[5]))
    else if |s| >= 2 && s[1] in "\"\\/bfnrt" then Some(Short(s[1]))
    else None
  }

  /** The inside of a string up to its closing quote. */
  function ReadString(mode: Mode, q: char, s: string): (r: Got<seq<Item>>)
    ensures !r.Cut? && (r.Got? ==> |r.rest| < |s| && (NulFree(s) ==> NulFree(r.rest)))
    decreases |s|
  {
    if s == "" then Nope
    else if s[0] == q then Got([], s[1..])
    else
      var i := FirstItem(mode, s);
      if i.None? then Nope
      else
        var r := ReadString(mode, q, s[|ItemText(i.value)|..]);
        if r.Nope? then Nope else Got([i.value] + r.val, r.rest)
  }

  // ------------------------------------------------------------ numbers (section 6)

  predicate Marked(w: string) {
    '.' in w || 'e' in w || 'E' in w
  }

  predicate EndsInMark(w: string) {
    w != "" && (w[|w| - 1] == '.' || w[|w| - 1] == 'e' || w[|w| - 1] == 'E')
  }

  /** Whether `c` goes on the number token `w`: one point, then one exponent, and signs behind either. */
  predicate Takes(w: string, c: char) {
    || IsDigit(c)
    || ((c == 'e' || c == 'E') && 'e' !in w && 'E' !in w)
    || (c == '-' && (w == "" || EndsInMark(w)))
    || (c == '+' && EndsInMark(w))
    || (c == '.' && !Marked(w))
  }

  /** The token that begins with `w` and goes on in `s` as far as it can. */
  function Token(w: string, s: string): (r: string)
    ensures w <= r <= w + s
    decreases |s|
  {
    if s != "" && Takes(w, s[0]) then
      assert w + [s[0]] + s[1..] == w + s;
      Token(w + [s[0]], s[1..])
    else w
  }

  /** The wider grammar of numbers: zeros may lead, and digits may be missing on one side of the point. */
  function WideNext(p: Position, c: char): Position {
    match p
    case Begin => if c == '-' then Minus else if IsDigit(c) then Whole else Bad
    case Minus => if c == '.' then Point else if IsDigit(c) then Whole else Bad
    case Whole => if IsDigit(c) then Whole else if c == '.' then Frac else AfterFrac(c)
    case _ => Next(p, c)
  }

  function Magnitude(w: string): string {
    if w != "" && w[0] == '-' then w[1..] else w
  }

  function WideReach(w: string): Position {
    if w == "" then Begin else WideNext(WideReach(w[..|w| - 1]), w[|w| - 1])
  }

  lemma MagnitudeOn(v: string, c: char)
    ensures Magnitude(v + [c]) == if v != "" then Magnitude(v) + [c] else if c == '-' then "" else [c]
    ensures AllDigits(Magnitude(v)) && IsDigit(c) ==> AllDigits(Magnitude(v + [c]))
  {
    assert v == "" ==> v + [c] == [c];
  }

  /** Up to its whole part a number is a minus, if there is one, and digits. */
  lemma {:induction false} WideShape(w: string)
    ensures var p, d := WideReach(w), Magnitude(w);
            && p != Zero && (p == Begin ==> w == "") && (p == Minus ==> w == "-")
            && (p == Whole ==> d != "" && AllDigits(d))
  {
    hide Magnitude, AllDigits;
    if w != "" {
      var v, c := w[..|w| - 1], w[|w| - 1];
      assert w == v + [c];
      WideShape(v);
      MagnitudeOn(v, c);
      if v == "" || v == "-" {
        SignAlone();
      }
    }
  }

  lemma SignAlone()
    ensures AllDigits(Magnitude("")) && AllDigits(Magnitude("-"))
  {
  }

  /** The positions a number may end at. */
  predicate Final(p: Position) {
    p == Whole || p == Frac || p == ExpDigits
  }

  /** Without the exponent mark and the signs it ends in. */
  function Trim(w: string): (r: string)
    ensures r <= w && (w != "" ==> r != "")
  {
    if |w| > 1 && w[|w| - 1] in "eE+-" then Trim(w[..|w| - 1]) else w
  }

  /**
   An integer. Strictly it has to fit 64 bits, and a zero before its other digits is excused only by a
   minus; by default what does not fit becomes the nearest integer that does.
   */
  function IntegerOf(mode: Mode, w: string): Option<Json>
    requires AllDigits(Magnitude(w))
  {
    var n: int := Value(Magnitude(w));
    if w != "" && w[0] == '-' then
      if -n >= INT64_MIN then Some(Int(-n)) else if mode == Lenient then Some(Int(INT64_MIN)) else None
    else if mode != Lenient && n != 0 && w[0] == '0' then None
    else if n <= INT64_MAX then Some(Int(n))
    else if n <= UINT64_MAX then Some(UInt(n))
    else if mode == Lenient then Some(UInt(UINT64_MAX))
    else None
  }

  function NumberOf(mode: Mode, w: string): Option<Json> {
    if mode == Lenient && Marked(w) then if Final(WideReach(Trim(w))) then Some(Double(Trim(w))) else None
    else
      match WideReach(w)
      case Whole =>
        WideShape(w);
        IntegerOf(mode, w)
      case Frac => Some(Double(w))
      case ExpDigits => Some(Double(w))
      case _ => None
  }

  predicate StartsNumber(s: string) {
    s != "" && (IsDigit(s[0]) || s[0] == '-')
  }

  function ReadNumber(mode: Mode, s: string): (r: Got<Json>)
    requires StartsNumber(s)
    ensures !r.Cut? && (r.Got? ==> |r.rest| < |s| && (NulFree(s) ==> NulFree(r.rest)))
  {
    var w := Token("", s);
    assert "" + s == s;
    if mode != Rfc && Named(mode, "-Infinity", s) then Got(Double("-Infinity"), s[9..])
    else if (mode == Rfc && !RfcNumbers.Complete(w)) || NumberOf(mode, w).None? then Nope
    else Got(NumberOf(mode, w).value, s[|w|..])
  }

  // ------------------------------------------------------------ literals (section 3)

  predicate OtherCase(w: char, c: char) {
    || ('a' <= w <= 'z' && c as int == w as int - 32)
    || ('A' <= w <= 'Z' && c as int == w as int + 32)
  }

  predicate SameLetter(mode: Mode, w: char, c: char) {
    c == w || (mode == Lenient && OtherCase(w, c))
  }

  /** The first `n` letters of `word` stand at the beginning of `s`. */
  predicate Begins(mode: Mode, word: string, s: string, n: nat) {
    n <= |word| && n <= |s| && forall i :: 0 <= i < n ==> SameLetter(mode, word[i], s[i])
  }

  predicate Named(mode: Mode, word: string, s: string) {
    Begins(mode, word, s, |word|)
  }

  function ReadLiteral(mode: Mode, s: string): (r: Got<Json>)
    ensures !r.Cut? && (r.Got? ==> |r.rest| < |s| && (NulFree(s) ==> NulFree(r.rest)))
  {
    if Named(mode, "null", s) then Got(Null, s[4..])
    else if Named(mode, "true", s) then Got(Bool(true), s[4..])
    else if Named(mode, "false", s) then Got(Bool(false), s[5..])
    else if mode != Rfc && Named(mode, "NaN", s) then Got(Double("NaN"), s[3..])
    else if mode != Rfc && Named(mode, "Infinity", s) then Got(Double("Infinity"), s[8..])
    else Nope
  }

  // ------------------------------------------------------------ values (sections 3 to 5)

  predicate StringQuote(mode: Mode, c: char) {
    c == '"' || (mode == Lenient && c == '\'')
  }

  predicate NameQuote(mode: Mode, c: char) {
    c == '"' || (mode != Rfc && c == '\'')
  }

  /** A value at the very beginning of the text, with at most `room` levels below it. */
  function ReadValue(mode: Mode, s: string, room: int): (r: Got<Json>)
    ensures r.Got? ==> |r.rest| < |s| && (NulFree(s) ==> NulFree(r.rest))
    ensures mode != Lenient ==> !r.Cut?
    decreases |s|, 0
  {
    if s == "" then Nope
    else if StringQuote(mode, s[0]) then ReadQuoted(mode, s)
    else if s[0] == '[' then
      var g := Skip(mode, s[1..]);
      if !g.Past? then Nope
      else if g.rest != "" && g.rest[0] == ']' then Got(Arr([]), g.rest[1..])
      else ReadElements(mode, g.rest, room, [])
    else if s[0] == '{' then
      var g := Skip(mode, s[1..]);
      if !g.Past? then Nope
      else if g.rest != "" && g.rest[0] == '}' then Got(Obj([]), g.rest[1..])
      else ReadMembers(mode, g.rest, room, [])
    else if StartsNumber(s) then ReadNumber(mode, s)
    else ReadLiteral(mode, s)
  }

  function ReadQuoted(mode: Mode, s: string): (r: Got<Json>)
    requires s != ""
    ensures !r.Cut? && (r.Got? ==> |r.rest| < |s| && (NulFree(s) ==> NulFree(r.rest)))
  {
    var r := ReadString(mode, s[0], s[1..]);
    if r.Got? && ItemsOk(s[0], r.val) then Got(Str(Meaning(s[0], 0, r.val)), r.rest) else Nope
  }

  /** From an element to the closing bracket, which by default may stand behind a comma. */
  function ReadElements(mode: Mode, s: string, room: int, done: seq<Json>): (r: Got<Json>)
    ensures r.Got? ==> |r.rest| < |s| && (NulFree(s) ==> NulFree(r.rest))
    ensures mode != Lenient ==> !r.Cut?
    decreases |s|, 1
  {
    if mode == Lenient && done != [] && s != "" && s[0] == ']' then Got(Arr(done), s[1..])
    else if room < 1 then Nope
    else
      var e := Gapped(mode, ReadValue(mode, s, room - 1));
      if !e.Got? then e
      else if e.rest != "" && e.rest[0] == ']' then Got(Arr(done + [e.val]), e.rest[1..])
      else if e.rest != "" && e.rest[0] == ',' then
        var g := Skip(mode, e.rest[1..]);
        if g.Past? then ReadElements(mode, g.rest, room, done + [e.val]) else Nope
      else Nope
  }

  /** A member's name, which the code cuts at a NUL. */
  function ReadName(mode: Mode, s: string): (r: Got<string>)
    ensures !r.Cut? && (r.Got? ==> |r.rest| < |s| && (NulFree(s) ==> NulFree(r.rest)))
  {
    if s == "" || !NameQuote(mode, s[0]) then Nope
    else
      var r := ReadString(mode, s[0], s[1..]);
      if r.Nope? || !ItemsOk(s[0], r.val) then Nope
      else
        var name := Meaning(s[0], 0, r.val);
        if mode == Rfc && !NulFree(name) then Nope else Got(CString(name), r.rest)
  }

  /** A name, its colon, and the gaps behind both. */
  function ReadKey(mode: Mode, s: string): (r: Got<string>)
    ensures !r.Cut? && (r.Got? ==> |r.rest| < |s| && (NulFree(s) ==> NulFree(r.rest)))
    ensures r.Got? && r.rest != "" ==> !Blank(r.rest[0]) && (mode == Lenient ==> r.rest[0] != '/')
  {
    var n := ReadName(mode, s);
    if n.Nope? then Nope
    else
      var g := Skip(mode, n.rest);
      if !(g.Past? && g.rest != "" && g.rest[0] == ':') then Nope
      else
        var h := Skip(mode, g.rest[1..]);
        if h.Past? then Got(n.val, h.rest) else Nope
  }

  /**
   From a member's name to the closing brace, which by default may stand behind a comma; a name that came
   before gets the new value.
   */
  function ReadMembers(mode: Mode, s: string, room: int, done: seq<Field>): (r: Got<Json>)
    ensures r.Got? ==> |r.rest| < |s| && (NulFree(s) ==> NulFree(r.rest))
    ensures mode != Lenient ==> !r.Cut?
    decreases |s|, 1
  {
    if mode == Lenient && done != [] && s != "" && s[0] == '}' then Got(Obj(done), s[1..])
    else
      var n := ReadKey(mode, s);
      if n.Nope? then Nope else ReadMember(mode, n.rest, room, done, n.val)
  }

  /** The members from the value of `key` on. */
  function ReadMember(mode: Mode, s: string, room: int, done: seq<Field>, key: string): (r: Got<Json>)
    ensures r.Got? ==> |r.rest| < |s| && (NulFree(s) ==> NulFree(r.rest))
    ensures mode != Lenient ==> !r.Cut?
    decreases |s|, 1
  {
    if room < 1 then Nope
    else
      var e := Gapped(mode, ReadValue(mode, s, room - 1));
      if !e.Got? then e
      else
        var more := Put(done, key, e.val);
        if e.rest != "" && e.rest[0] == '}' then Got(Obj(more), e.rest[1..])
        else if e.rest != "" && e.rest[0] == ',' then
          var g := Skip(mode, e.rest[1..]);
          if g.Past? then ReadMembers(mode, g.rest, room, more) else Nope
        else Nope
  }

  /** A text: a value, with a gap before and behind it; `trailing` allows any text behind that. */
  function ReadText(mode: Mode, t: string, depth: nat, trailing: bool): (r: Got<Json>)
    ensures r.Got? && !trailing ==> r.rest == ""
  {
    var g := Skip(mode, t);
    if !g.Past? then Nope
    else
      var r := Gapped(mode, ReadValue(mode, g.rest, depth - 1));
      if r.Got? && r.rest != "" && !trailing then Nope else r
  }

  // ------------------------------------------------------------ items that were read are items

  /** The characters an escape stands for, in the order of section 7. */
  lemma EscapesOfRfc(e: char)
    ensures SimpleEscape(e).Some? <==> e in "\"\\/bfnrt"
    ensures SimpleEscape('"') == Some('"') && SimpleEscape('\\') == Some('\\') && SimpleEscape('/') == Some('/')
    ensures SimpleEscape('b') == Some(8 as char) && SimpleEscape('f') == Some(12 as char)
    ensures SimpleEscape('n') == Some(10 as char) && SimpleEscape('r') == Some(13 as char)
    ensures SimpleEscape('t') == Some(9 as char)
  {
  }

  lemma FirstItemOk(mode: Mode, q: char, s: string)
    requires s != "" && s[0] != q && q != '\\' && NulFree(s) && FirstItem(mode, s).Some?
    ensures ItemOk(q, FirstItem(mode, s).value)
  {
    hide SimpleEscape;
    if |s| >= 2 {
      EscapesOfRfc(s[1]);
    }
  }

  lemma OneMore(q: char, i: Item, items: seq<Item>)
    ensures ItemOk(q, i) && ItemsOk(q, items) ==> ItemsOk(q, [i] + items)
    ensures Text([i] + items) == ItemText(i) + Text(items)
  {
    hide ItemOk, ItemText;
    assert ([i] + items)[1..] == items;
  }

  lemma {:induction false} ReadItemsOk(mode: Mode, q: char, s: string)
    requires q != '\\' && NulFree(s) && ReadString(mode, q, s).Got?
    ensures var r := ReadString(mode, q, s); ItemsOk(q, r.val) && s == Text(r.val) + [q] + r.rest
    decreases |s|
  {
    hide ItemOk, ItemText, FirstItem, ItemsOk, Text;
    if s[0] == q {
      NothingRead(q);
      assert s == [q] + s[1..];
    } else {
      var i := FirstItem(mode, s).value;
      var tail := s[|ItemText(i)|..];
      FirstItemOk(mode, q, s);
      ReadItemsOk(mode, q, tail);
      var l := ReadString(mode, q, tail);
      OneMore(q, i, l.val);
      assert s == ItemText(i) + tail;
      assert ItemText(i) + (Text(l.val) + [q] + l.rest) == ItemText(i) + Text(l.val) + [q] + l.rest;
    }
  }

  lemma NothingRead(q: char)
    ensures ItemsOk(q, []) && Text([]) == "" && "" + [q] == [q]
  {
  }

  // ------------------------------------------------------------ the RFC's texts are read alike in every mode

  /** A text of the RFC goes on with white space or with a character that begins no comment. */
  lemma {:induction false} WiderSkip(mode: Mode, s: string)
    requires Skip(Rfc, s).rest == "" || Skip(Rfc, s).rest[0] != '/'
    ensures Skip(mode, s) == Skip(Rfc, s)
    decreases |s|
  {
    if s != "" && Blank(s[0]) {
      WiderSkip(mode, s[1..]);
    }
  }

  lemma {:induction false} WiderString(mode: Mode, q: char, s: string)
    requires ReadString(Rfc, q, s).Got?
    ensures ReadString(mode, q, s) == ReadString(Rfc, q, s)
    decreases |s|
  {
    if s[0] != q {
      WiderString(mode, q, s[|ItemText(FirstItem(Rfc, s).value)|..]);
    }
  }

  /** Where the RFC has got to, the wider grammar has got at least as far. */
  predicate AtLeast(p: Position, q: Position) {
    p == Bad || p == q || (p == Zero && q == Whole) || (p == Point && q == Frac)
  }

  lemma {:induction false} WiderReach(w: string)
    ensures AtLeast(Reach(w), WideReach(w))
  {
    if w != "" {
      WiderReach(w[..|w| - 1]);
    }
  }

  lemma ZeroValue()
    ensures Value("0") == 0
  {
    assert "0"[..0] == "";
  }

  /** In the RFC's numbers a zero stands alone before the point, and a digit comes last. */
  lemma {:induction false} RfcShape(w: string)
    ensures Reach(w) == Whole ==> Magnitude(w) != "" && Magnitude(w)[0] != '0'
    ensures Reach(w) == Zero ==> Magnitude(w) == "0"
    ensures Reach(w) == Minus ==> w == "-"
    ensures Reach(w) == Begin ==> w == ""
    ensures RfcNumbers.Complete(w) ==> w != "" && IsDigit(w[|w| - 1])
  {
    if w != "" {
      RfcShape(w[..|w| - 1]);
      assert w == w[..|w| - 1] + [w[|w| - 1]];
    }
  }

  /** Every number of the RFC is read, unless it is an integer that does not fit 64 bits. */
  lemma RfcNumberIsRead(w: string)
    requires RfcNumbers.Complete(w)
    ensures Reach(w) == Frac || Reach(w) == ExpDigits ==> NumberOf(Rfc, w) == Some(Double(w))
    ensures Reach(w) == Zero || Reach(w) == Whole ==>
              AllDigits(Magnitude(w)) &&
              var n: int := Value(Magnitude(w));
              var i := if w[0] == '-' then -n else n;
              NumberOf(Rfc, w) == if i < INT64_MIN || i > UINT64_MAX then None
                                  else if i <= INT64_MAX then Some(Int(i)) else Some(UInt(i))
  {
    hide Value, Marked, Trim, Reach, WideReach;
    WideShape(w);
    WiderReach(w);
    RfcShape(w);
    if Reach(w) == Zero {
      ZeroValue();
    }
  }

  lemma WiderNumberOf(mode: Mode, w: string)
    requires RfcNumbers.Complete(w) && NumberOf(Rfc, w).Some?
    ensures NumberOf(mode, w) == NumberOf(Rfc, w)
  {
    hide Value, Reach, WideReach;
    WideShape(w);
    WiderReach(w);
    RfcShape(w);
    if Marked(w) && WideReach(w) == Whole {
      UnmarkedDigits(w);
    }
  }

  lemma UnmarkedDigits(w: string)
    requires AllDigits(Magnitude(w))
    ensures !Marked(w)
  {
    assert w == Magnitude(w) || w == "-" + Magnitude(w);
  }

  lemma LetterOf(mode: Mode, word: string, s: string, i: nat)
    requires Named(mode, word, s) && i < |word|
    ensures SameLetter(mode, word[i], s[i])
  {
  }

  lemma LoneMinus(mode: Mode, s: string)
    requires Named(mode, "-Infinity", s)
    ensures Token("", s) == "-" && WideReach("-") == Minus && Reach("-") == Minus
  {
    hide Named;
    LetterOf(mode, "-Infinity", s, 0);
    LetterOf(mode, "-Infinity", s, 1);
    assert |s| >= 9 by { NamedLong(mode, "-Infinity", s); }
    MinusToken(s);
  }

  lemma NamedLong(mode: Mode, word: string, s: string)
    requires Named(mode, word, s)
    ensures |word| <= |s|
  {
  }

  lemma MinusToken(s: string)
    requires |s| >= 2 && s[0] == '-' && (s[1] == 'I' || s[1] == 'i')
    ensures Token("", s) == "-" && WideReach("-") == Minus && Reach("-") == Minus
  {
    hide Takes;
    MinusTakes(s[1]);
    assert "" + [s[0]] == "-" && "-"[..0] == "" && s[1..][0] == s[1];
  }

  lemma MinusTakes(c: char)
    ensures Takes("", '-')
    ensures c == 'I' || c == 'i' ==> !Takes("-", c)
  {
  }

  lemma WiderNumber(mode: Mode, s: string)
    requires StartsNumber(s) && ReadNumber(Rfc, s).Got?
    ensures ReadNumber(mode, s) == ReadNumber(Rfc, s)
  {
    hide Reach, NumberOf, Token, Named;
    assert "" + s == s;
    WiderNumberOf(mode, Token("", s));
    if Named(mode, "-Infinity", s) {
      LoneMinus(mode, s);
    }
  }

  lemma WiderNamed(mode: Mode, word: string, s: string)
    requires Named(Rfc, word, s)
    ensures Named(mode, word, s) && (word != "" ==> s[0] == word[0])
  {
    assert word != "" ==> SameLetter(Rfc, word[0], s[0]);
  }

  lemma OtherLetter(mode: Mode, word: string, s: string)
    requires word != "" && s != "" && !SameLetter(mode, word[0], s[0])
    ensures !Named(mode, word, s)
  {
  }

  lemma WiderLiteral(mode: Mode, s: string)
    requires ReadLiteral(Rfc, s).Got?
    ensures ReadLiteral(mode, s) == ReadLiteral(Rfc, s)
    ensures s != "" && (s[0] == 'n' || s[0] == 't' || s[0] == 'f')
  {
    hide Named;
    var word := if Named(Rfc, "null", s) then "null" else if Named(Rfc, "true", s) then "true" else "false";
    WiderNamed(mode, word, s);
    if word != "null" {
      OtherLetter(mode, "null", s);
    }
    if word == "false" {
      OtherLetter(mode, "true", s);
    }
  }

  lemma WiderQuoted(mode: Mode, s: string)
    requires s != "" && ReadQuoted(Rfc, s).Got?
    ensures ReadQuoted(mode, s) == ReadQuoted(Rfc, s)
  {
    hide ReadString, Meaning;
    WiderString(mode, s[0], s[1..]);
  }

  /** A text of the RFC goes on behind a value with something that begins no comment. */
  lemma WiderGapped(mode: Mode, g: Got<Json>)
    requires var r := Gapped(Rfc, g); r.Got? && (r.rest == "" || r.rest[0] != '/')
    ensures Gapped(mode, g) == Gapped(Rfc, g)
  {
    WiderSkip(mode, g.rest);
  }

  lemma {:induction false} WiderValue(mode: Mode, s: string, room: int)
    requires ReadValue(Rfc, s, room).Got?
    ensures ReadValue(mode, s, room) == ReadValue(Rfc, s, room)
    ensures s != "" && s[0] != '/' && s[0] != ']' && s[0] != '}'
    decreases |s|, 0
  {
    hide Meaning, ReadLiteral, ReadNumber, ReadElements, ReadMembers, ReadQuoted;
    if s[0] == '"' {
      WiderQuoted(mode, s);
    } else if s[0] == '[' {
      var u := Skip(Rfc, s[1..]).rest;
      if u == "" || u[0] != ']' {
        WiderElements(mode, u, room, []);
      }
      WiderSkip(mode, s[1..]);
    } else if s[0] == '{' {
      var u := Skip(Rfc, s[1..]).rest;
      if u == "" || u[0] != '}' {
        WiderMembers(mode, u, room, []);
      }
      WiderSkip(mode, s[1..]);
    } else if StartsNumber(s) {
      WiderNumber(mode, s);
    } else {
      WiderLiteral(mode, s);
    }
  }

  lemma {:induction false} WiderElements(mode: Mode, s: string, room: int, done: seq<Json>)
    requires ReadElements(Rfc, s, room, done).Got?
    ensures ReadElements(mode, s, room, done) == ReadElements(Rfc, s, room, done)
    ensures s != "" && s[0] != '/'
    decreases |s|, 1
  {
    hide ReadValue;
    WiderValue(mode, s, room - 1);
    var e := Gapped(Rfc, ReadValue(Rfc, s, room - 1));
    WiderGapped(mode, ReadValue(Rfc, s, room - 1));
    if e.rest[0] == ',' {
      WiderElements(mode, Skip(Rfc, e.rest[1..]).rest, room, done + [e.val]);
      WiderSkip(mode, e.rest[1..]);
    }
  }

  lemma WiderName(mode: Mode, s: string)
    requires ReadName(Rfc, s).Got?
    ensures ReadName(mode, s) == ReadName(Rfc, s) && s[0] == '"'
  {
    hide ReadString, Meaning;
    WiderString(mode, '"', s[1..]);
  }

  lemma WiderKey(mode: Mode, s: string)
    requires ReadKey(Rfc, s).Got? && (ReadKey(Rfc, s).rest == "" || ReadKey(Rfc, s).rest[0] != '/')
    ensures ReadKey(mode, s) == ReadKey(Rfc, s) && s != "" && s[0] == '"'
  {
    hide ReadName;
    WiderName(mode, s);
    var n := ReadName(Rfc, s);
    WiderSkip(mode, n.rest);
    WiderSkip(mode, Skip(Rfc, n.rest).rest[1..]);
  }

  lemma {:induction false} WiderMembers(mode: Mode, s: string, room: int, done: seq<Field>)
    requires ReadMembers(Rfc, s, room, done).Got?
    ensures ReadMembers(mode, s, room, done) == ReadMembers(Rfc, s, room, done)
    ensures s != "" && s[0] == '"'
    decreases |s|, 1
  {
    hide ReadKey, ReadMember;
    var n := ReadKey(Rfc, s);
    WiderMember(mode, n.rest, room, done, n.val);
    WiderKey(mode, s);
  }

  lemma {:induction false} WiderMember(mode: Mode, s: string, room: int, done: seq<Field>, key: string)
    requires ReadMember(Rfc, s, room, done, key).Got?
    ensures ReadMember(mode, s, room, done, key) == ReadMember(Rfc, s, room, done, key)
    ensures s != "" && s[0] != '/'
    decreases |s|, 1
  {
    hide ReadValue, ReadMembers;
    var v := ReadValue(Rfc, s, room - 1);
    WiderValue(mode, s, room - 1);
    WiderGapped(mode, v);
    var e := Gapped(Rfc, v);
    if e.rest[0] == ',' {
      WiderMembers(mode, Skip(Rfc, e.rest[1..]).rest, room, Put(done, key, e.val));
      WiderSkip(mode, e.rest[1..]);
    }
  }

  /** A text of RFC 8259, with integers of 64 bits, is read alike in every mode. */
  lemma RfcIsRead(mode: Mode, t: string, depth: nat, trailing: bool)
    requires ReadText(Rfc, t, depth, false).Got?
    ensures ReadText(mode, t, depth, trailing) == ReadText(Rfc, t, depth, false)
  {
    hide ReadValue;
    var s := Skip(Rfc, t).rest;
    WiderValue(mode, s, depth - 1);
    WiderSkip(mode, t);
    WiderGapped(mode, ReadValue(Rfc, s, depth - 1));
  }
}
