/**
 What the print flags do to a text, told by scanning it from left to right with nothing but the number
 of open brackets, the last character and whether a string is open.
 */
module PrintLayout {
  import opened Basics
  import opened OrderedMap
  import opened JsonValue
  import opened Decimal
  import opened StringLiteral
  import opened JsonPrinter

  /** Where a scan stands; `last` is the last character that was not white space. */
  datatype Scan = Scan(depth: nat, quoted: bool, escaped: bool, last: char)

  const BEGIN := Scan(0, false, false, '"')

  predicate Opens(c: char) {
    c == '[' || c == '{'
  }

  predicate Closes(c: char) {
    c == ']' || c == '}'
  }

  function Next(st: Scan, c: char): Scan {
    if st.quoted then
      if st.escaped then st.(escaped := false)
      else if c == '\\' then st.(escaped := true)
      else if c == '"' then st.(quoted := false, last := c)
      else st
    else
      Scan(if Opens(c) then st.depth + 1 else if Closes(c) && st.depth > 0 then st.depth - 1 else st.depth,
           c == '"', false, c)
  }

  function Scanned(st: Scan, s: string): Scan
    decreases |s|
  {
    if s == "" then st else Scanned(Next(st, s[0]), s[1..])
  }

  /** A newline and two spaces, or one tab, for each open bracket. */
  function NewLine(f: Flags, depth: nat): string {
    "\n" + if f.prettyTab then seq(depth, _ => '\t') else seq(2 * depth, _ => ' ')
  }

  /** The white space in front of a character outside strings. */
  function Before(f: Flags, st: Scan, c: char): string {
    if Closes(c) then
      if f.pretty then if Opens(st.last) || st.depth == 0 then "" else NewLine(f, st.depth - 1)
      else if f.spaced then " "
      else ""
    else if Opens(st.last) || st.last == ',' then
      if f.pretty then NewLine(f, st.depth) else if f.spaced then " " else ""
    else if st.last == ':' && f.spaced then " "
    else ""
  }

  /** A text without white space, laid out as the flags ask. */
  function Laid(f: Flags, st: Scan, s: string): string
    decreases |s|
  {
    if s == "" then ""
    else (if st.quoted then "" else Before(f, st, s[0])) + [s[0]] + Laid(f, Next(st, s[0]), s[1..])
  }

  /**
   No white space outside strings and no control character in them; a slash in them stands behind a
   backslash, unless the flags ask for bare ones.
   */
  predicate Compact(f: Flags, st: Scan, s: string)
    decreases |s|
  {
    s != "" ==>
      && (if st.quoted then s[0] >= ' ' && (s[0] == '/' ==> st.escaped == !f.noSlashEscape) else s[0] > ' ')
      && Compact(f, Next(st, s[0]), s[1..])
  }

  function Plain(f: Flags): Flags {
    Flags(false, false, false, f.noSlashEscape)
  }

  /** Characters that are neither white space nor structural. */
  predicate Inert(c: char) {
    c > ' ' && c != '"' && c != ',' && c != ':' && !Opens(c) && !Closes(c)
  }

  predicate AllInert(s: string) {
    forall i :: 0 <= i < |s| ==> Inert(s[i])
  }

  /** The texts of doubles are those of numbers: not empty, and of such characters. */
  ghost predicate NumberTexts(v: Json) {
    match v
    case Double(text) => text != "" && AllInert(text)
    case Arr(es) => forall i :: 0 <= i < |es| ==> NumberTexts(es[i])
    case Obj(fs) => forall i :: 0 <= i < |fs| ==> NumberTexts(fs[i].val)
    case _ => true
  }

  // ------------------------------------------------------------ texts one after the other

  lemma {:induction false} LaidOn(f: Flags, st: Scan, a: string, b: string)
    ensures Laid(f, st, a + b) == Laid(f, st, a) + Laid(f, Scanned(st, a), b)
    ensures Scanned(st, a + b) == Scanned(Scanned(st, a), b)
    ensures Compact(f, st, a + b) <==> Compact(f, st, a) && Compact(f, Scanned(st, a), b)
    decreases |a|
  {
    hide Before, Next;
    if a == "" {
      assert a + b == b;
    } else {
      assert (a + b)[0] == a[0] && (a + b)[1..] == a[1..] + b;
      LaidOn(f, Next(st, a[0]), a[1..], b);
    }
  }

  /** A piece of text: how it is laid out, and where the scan stands behind it. */
  predicate Piece(f: Flags, st: Scan, s: string, out: string, after: Scan) {
    Laid(f, st, s) == out && Scanned(st, s) == after && Compact(f, st, s)
  }

  lemma Pieces(f: Flags, st: Scan, a: string, outA: string, mid: Scan, b: string, outB: string, after: Scan)
    requires Piece(f, st, a, outA, mid) && Piece(f, mid, b, outB, after)
    ensures Piece(f, st, a + b, outA + outB, after)
  {
    hide Laid, Scanned, Compact;
    LaidOn(f, st, a, b);
  }

  lemma Nothing(f: Flags, st: Scan)
    ensures Piece(f, st, "", "", st)
  {
  }

  lemma OneChar(f: Flags, st: Scan, c: char)
    requires !st.quoted && c > ' '
    ensures Piece(f, st, [c], Before(f, st, c) + [c], Next(st, c))
  {
    hide Before, Next;
    assert [c][1..] == "";
    Nothing(f, Next(st, c));
    assert Before(f, st, c) + [c] + "" == Before(f, st, c) + [c];
  }

  // ------------------------------------------------------------ scalars and strings

  /** The white space in front of a value or a name. */
  function Lead(f: Flags, st: Scan): string {
    Before(f, st, '"')
  }

  /** Behind a value: nothing is open that was not, and the last character asks for no white space. */
  predicate Past(st: Scan, after: Scan) {
    && after == st.(last := after.last) && !st.quoted && !st.escaped
    && !Opens(after.last) && after.last != ',' && after.last != ':'
  }

  lemma {:induction false} InertPiece(f: Flags, st: Scan, s: string)
    requires s != "" && AllInert(s) && !st.quoted && !st.escaped
    ensures var after := st.(last := s[|s| - 1]); Piece(f, st, s, Lead(f, st) + s, after) && Past(st, after)
    decreases |s|
  {
    OneChar(f, st, s[0]);
    var mid := st.(last := s[0]);
    if |s| == 1 {
      assert s == [s[0]];
    } else {
      InertPiece(f, mid, s[1..]);
      assert Lead(f, mid) == "";
      var after := st.(last := s[|s| - 1]);
      Pieces(f, st, [s[0]], Lead(f, st) + [s[0]], mid, s[1..], "" + s[1..], after);
      assert [s[0]] + s[1..] == s;
      assert Lead(f, st) + [s[0]] + ("" + s[1..]) == Lead(f, st) + s;
    }
  }

  /** Characters that stand for themselves inside a string. */
  predicate Ordinary(f: Flags, s: string) {
    forall i :: 0 <= i < |s| ==>
      s[i] >= ' ' && s[i] != '"' && s[i] != '\\' && (s[i] == '/' ==> f.noSlashEscape)
  }

  lemma {:induction false} OrdinaryPiece(f: Flags, st: Scan, s: string)
    requires st.quoted && !st.escaped && Ordinary(f, s)
    ensures Piece(f, st, s, s, st)
    decreases |s|
  {
    if s != "" {
      OrdinaryPiece(f, st, s[1..]);
      assert "" + [s[0]] + s[1..] == s;
    }
  }

  lemma BackslashPiece(f: Flags, st: Scan, e: char)
    requires st.quoted && !st.escaped && e >= ' ' && (e == '/' ==> !f.noSlashEscape)
    ensures Piece(f, st, ['\\', e], ['\\', e], st)
  {
    var t := st.(escaped := true);
    assert ['\\', e][1..] == [e] && [e][1..] == "";
    Nothing(f, st);
    assert Piece(f, t, [e], [e], st) by {
      assert "" + [e] + "" == [e];
    }
    assert "" + ['\\'] + [e] == ['\\', e];
  }

  lemma EscapedCharPiece(f: Flags, p: Flags, st: Scan, c: char)
    requires st.quoted && !st.escaped && p.noSlashEscape == f.noSlashEscape
    ensures Piece(f, st, EscapeChar(p, c), EscapeChar(p, c), st)
  {
    hide Piece;
    var e := EscapeChar(p, c);
    if e[0] != '\\' {
      OrdinaryPiece(f, st, e);
    } else {
      BackslashPiece(f, st, e[1]);
      OrdinaryPiece(f, st, e[2..]);
      Pieces(f, st, ['\\', e[1]], ['\\', e[1]], st, e[2..], e[2..], st);
      assert ['\\', e[1]] + e[2..] == e;
    }
  }

  lemma {:induction false} EscapedPiece(f: Flags, p: Flags, st: Scan, s: string)
    requires st.quoted && !st.escaped && p.noSlashEscape == f.noSlashEscape
    ensures Piece(f, st, Escape(p, s), Escape(p, s), st)
    decreases |s|
  {
    hide Piece, EscapeChar;
    if s == "" {
      Nothing(f, st);
    } else {
      EscapedCharPiece(f, p, st, s[0]);
      EscapedPiece(f, p, st, s[1..]);
      Pieces(f, st, EscapeChar(p, s[0]), EscapeChar(p, s[0]), st, Escape(p, s[1..]), Escape(p, s[1..]), st);
    }
  }

  lemma QuotedPiece(f: Flags, p: Flags, st: Scan, s: string)
    requires !st.quoted && !st.escaped && p.noSlashEscape == f.noSlashEscape
    ensures var after := st.(last := '"');
            Piece(f, st, Quoted(p, s), Lead(f, st) + Quoted(p, s), after) && Past(st, after)
  {
    hide Piece, Escape, Before;
    var in_, after := st.(quoted := true, last := '"'), st.(last := '"');
    OneChar(f, st, '"');
    EscapedPiece(f, p, in_, s);
    ClosingQuote(f, in_);
    Pieces(f, st, "\"", Lead(f, st) + "\"", in_, Escape(p, s), Escape(p, s), in_);
    Pieces(f, st, "\"" + Escape(p, s), Lead(f, st) + "\"" + Escape(p, s), in_, "\"", "\"", after);
    assert Lead(f, st) + "\"" + Escape(p, s) + "\"" == Lead(f, st) + Quoted(p, s);
  }

  lemma ClosingQuote(f: Flags, st: Scan)
    requires st.quoted && !st.escaped
    ensures Piece(f, st, "\"", "\"", st.(quoted := false, last := '"'))
  {
    assert "\""[1..] == "";
  }

  lemma {:induction false} DigitsInert(n: nat)
    ensures AllInert(Digits(n)) && Digits(n) != ""
  {
    if n >= 10 {
      DigitsInert(n / 10);
    }
  }

  // ------------------------------------------------------------ trees

  lemma GapIsLead(f: Flags, st: Scan)
    requires Opens(st.last) || st.last == ','
    ensures Lead(f, st) == Gap(f, st.depth) && Gap(Plain(f), st.depth) == ""
  {
  }

  lemma ClosingIsBefore(f: Flags, st: Scan, c: char, level: nat, hadChildren: bool)
    requires Closes(c) && st.depth == level + 1 && !st.quoted && !st.escaped
    requires hadChildren <==> !Opens(st.last)
    ensures Before(f, st, c) == ClosingGap(f, level, hadChildren) && ClosingGap(Plain(f), level, hadChildren) == ""
    ensures Next(st, c) == st.(depth := level, last := c)
  {
  }

  /** The plain text of a value, laid out where it stands, is its text under the flags. */
  lemma {:induction false} ValueLaid(f: Flags, v: Json, st: Scan) returns (after: Scan)
    requires NumberTexts(v) && !st.quoted && !st.escaped
    ensures Piece(f, st, Print(Plain(f), v, st.depth), Lead(f, st) + Print(f, v, st.depth), after) && Past(st, after)
    decreases v, 2
  {
    hide Piece, Before, Digits, Quoted, Gap, ClosingGap, Past, AllInert;
    var p := Plain(f);
    match v {
      case Null => after := InertAfter(f, st, "null");
      case Bool(b) => after := InertAfter(f, st, if b then "true" else "false");
      case Int(i) => after := IntegerLaid(f, st, i);
      case UInt(u) => after := IntegerLaid(f, st, u);
      case Double(text) => InertPiece(f, st, text); after := st.(last := text[|text| - 1]);
      case Str(s) => QuotedPiece(f, p, st, s); QuotedSame(f, s); after := st.(last := '"');
      case Arr(_) => after := ArrayLaid(f, v, st);
      case Obj(_) => after := ObjectLaid(f, v, st);
    }
  }

  lemma InertAfter(f: Flags, st: Scan, s: string) returns (after: Scan)
    requires s == "null" || s == "true" || s == "false"
    requires !st.quoted && !st.escaped
    ensures Piece(f, st, s, Lead(f, st) + s, after) && Past(st, after)
  {
    hide Piece, Before, Past;
    InertPiece(f, st, s);
    after := st.(last := s[|s| - 1]);
  }

  lemma IntegerLaid(f: Flags, st: Scan, i: int) returns (after: Scan)
    requires !st.quoted && !st.escaped
    ensures Piece(f, st, SignedDigits(i), Lead(f, st) + SignedDigits(i), after) && Past(st, after)
  {
    hide Piece, Before, Past, Digits;
    DigitsInert(if i < 0 then -i else i);
    var s := SignedDigits(i);
    assert AllInert(s);
    InertPiece(f, st, s);
    after := st.(last := s[|s| - 1]);
  }

  lemma {:induction false} EscapeSame(f: Flags, s: string)
    ensures Escape(Plain(f), s) == Escape(f, s)
  {
    if s != "" {
      EscapeSame(f, s[1..]);
    }
  }

  lemma QuotedSame(f: Flags, s: string)
    ensures Quoted(Plain(f), s) == Quoted(f, s)
  {
    EscapeSame(f, s);
  }

  /** An opening bracket, what is between, and the closing bracket. */
  lemma BracketsLaid(f: Flags, st: Scan, o: char, c: char, plain: string, inner: string, end: Scan, hadChildren: bool)
    requires !st.quoted && !st.escaped && Opens(o) && Closes(c)
    requires Piece(f, Next(st, o), plain, inner, end)
    requires if hadChildren then Past(Next(st, o), end) else end == Next(st, o)
    ensures var after := st.(last := c);
            && Piece(f, st, [o] + plain + ClosingGap(Plain(f), st.depth, hadChildren) + [c],
                     Lead(f, st) + ([o] + inner + ClosingGap(f, st.depth, hadChildren) + [c]), after)
            && Past(st, after)
  {
    hide Piece, Before, ClosingGap;
    OneChar(f, st, o);
    OneChar(f, end, c);
    LeadIsBefore(f, st, o);
    ClosingIsBefore(f, end, c, st.depth, hadChildren);
    var gap, none := ClosingGap(f, st.depth, hadChildren), ClosingGap(Plain(f), st.depth, hadChildren);
    Pieces(f, st, [o], Lead(f, st) + [o], Next(st, o), plain, inner, end);
    Pieces(f, st, [o] + plain, Lead(f, st) + [o] + inner, end, [c], gap + [c], st.(last := c));
    assert [o] + plain + none + [c] == [o] + plain + [c];
    assert Lead(f, st) + [o] + inner + (gap + [c]) == Lead(f, st) + ([o] + inner + gap + [c]);
  }

  lemma LeadIsBefore(f: Flags, st: Scan, c: char)
    requires !Closes(c)
    ensures Before(f, st, c) == Lead(f, st)
  {
  }

  lemma {:induction false} ArrayLaid(f: Flags, v: Json, st: Scan) returns (after: Scan)
    requires v.Arr? && NumberTexts(v) && !st.quoted && !st.escaped
    ensures Piece(f, st, Print(Plain(f), v, st.depth), Lead(f, st) + Print(f, v, st.depth), after) && Past(st, after)
    decreases v, 1
  {
    hide Piece, Before, ClosingGap, Past, PrintElems;
    var p, in_ := Plain(f), Next(st, '[');
    var end := ElemsLaid(f, v.elems, in_, st.depth, true);
    BracketsLaid(f, st, '[', ']', PrintElems(p, v.elems, st.depth, true), PrintElems(f, v.elems, st.depth, true), end,
                 v.elems != []);
    after := st.(last := ']');
  }

  lemma {:induction false} ObjectLaid(f: Flags, v: Json, st: Scan) returns (after: Scan)
    requires v.Obj? && NumberTexts(v) && !st.quoted && !st.escaped
    ensures Piece(f, st, Print(Plain(f), v, st.depth), Lead(f, st) + Print(f, v, st.depth), after) && Past(st, after)
    decreases v, 1
  {
    hide Piece, Before, ClosingGap, Past, PrintFields;
    var p, in_ := Plain(f), Next(st, '{');
    var end := FieldsLaid(f, v.fields, in_, st.depth, true);
    BracketsLaid(f, st, '{', '}', PrintFields(p, v.fields, st.depth, true), PrintFields(f, v.fields, st.depth, true),
                 end, v.fields != []);
    after := st.(last := '}');
  }

  /** A comma, unless the member is the first, leaves the scan where the gap of a member is due. */
  lemma CommaLaid(f: Flags, st: Scan, first: bool) returns (mid: Scan)
    requires !st.quoted && !st.escaped
    requires if first then Opens(st.last) else !Opens(st.last) && st.last != ',' && st.last != ':'
    ensures Piece(f, st, Comma(first), Comma(first), mid) && mid == st.(last := mid.last)
    ensures Lead(f, mid) == Gap(f, st.depth) && Gap(Plain(f), st.depth) == ""
  {
    hide Gap;
    if first {
      mid := st;
      Nothing(f, st);
    } else {
      mid := Next(st, ',');
      OneChar(f, st, ',');
      assert "" + [','] == ",";
    }
    GapIsLead(f, mid);
  }

  lemma {:induction false} ElemsLaid(f: Flags, es: seq<Json>, st: Scan, level: nat, first: bool) returns (after: Scan)
    requires (forall i :: 0 <= i < |es| ==> NumberTexts(es[i])) && !st.quoted && !st.escaped && st.depth == level + 1
    requires if first then Opens(st.last) else !Opens(st.last) && st.last != ',' && st.last != ':'
    ensures Piece(f, st, PrintElems(Plain(f), es, level, first), PrintElems(f, es, level, first), after)
    ensures if es == [] then after == st else Past(st, after)
    decreases es, 0
  {
    hide Piece, Before, Gap, Print, NumberTexts;
    if es == [] {
      after := st;
      Nothing(f, st);
    } else {
      var p := Plain(f);
      var mid := CommaLaid(f, st, first);
      var end := ValueLaid(f, es[0], mid);
      after := ElemsLaid(f, es[1..], end, level, false);
      MemberJoined(f, st, first, mid, Print(p, es[0], level + 1), Print(f, es[0], level + 1), end,
                   PrintElems(p, es[1..], level, false), PrintElems(f, es[1..], level, false), after);
    }
  }

  /** Comma, gap and text of a member, and the members behind it. */
  lemma MemberJoined(f: Flags, st: Scan, first: bool, mid: Scan, plain: string, out: string, end: Scan,
                     plains: string, outs: string, after: Scan)
    requires Piece(f, st, Comma(first), Comma(first), mid) && Gap(Plain(f), st.depth) == ""
    requires Lead(f, mid) == Gap(f, st.depth) && Piece(f, mid, plain, Lead(f, mid) + out, end)
    requires Piece(f, end, plains, outs, after)
    ensures Piece(f, st, Comma(first) + Gap(Plain(f), st.depth) + plain + plains,
                  Comma(first) + Gap(f, st.depth) + out + outs, after)
  {
    hide Piece, Gap, Comma, Before;
    var gap := Gap(f, st.depth);
    Pieces(f, st, Comma(first), Comma(first), mid, plain, gap + out, end);
    Pieces(f, st, Comma(first) + plain, Comma(first) + (gap + out), end, plains, outs, after);
    assert Comma(first) + "" + plain + plains == Comma(first) + plain + plains;
    assert Comma(first) + (gap + out) + outs == Comma(first) + gap + out + outs;
  }

  /** The name of a member, its colon and its value. */
  lemma {:induction false} FieldLaid(f: Flags, fd: Field, st: Scan) returns (after: Scan)
    requires NumberTexts(fd.val) && !st.quoted && !st.escaped
    ensures Piece(f, st, Quoted(Plain(f), fd.key) + Colon(Plain(f)) + Print(Plain(f), fd.val, st.depth),
                  Lead(f, st) + (Quoted(f, fd.key) + Colon(f) + Print(f, fd.val, st.depth)), after)
    ensures Past(st, after)
    decreases fd.val, 3
  {
    hide Piece, Quoted, Print, Before;
    var p, key := Plain(f), Quoted(f, fd.key);
    QuotedPiece(f, p, st, fd.key);
    QuotedSame(f, fd.key);
    var named := st.(last := '"');
    ColonLaid(f, named);
    var colon := st.(last := ':');
    after := ValueLaid(f, fd.val, colon);
    var out := Print(f, fd.val, st.depth);
    Pieces(f, st, key, Lead(f, st) + key, named, ":", ":", colon);
    Pieces(f, st, key + ":", Lead(f, st) + key + ":", colon, Print(p, fd.val, st.depth), Lead(f, colon) + out, after);
    assert Lead(f, st) + key + ":" + (Lead(f, colon) + out) == Lead(f, st) + (key + (":" + Lead(f, colon)) + out);
    assert ":" + Lead(f, colon) == Colon(f);
  }

  lemma ColonLaid(f: Flags, st: Scan)
    requires !st.quoted && !st.escaped && st.last == '"'
    ensures Piece(f, st, ":", ":", st.(last := ':'))
    ensures Colon(f) == ":" + Lead(f, st.(last := ':')) && Colon(Plain(f)) == ":"
  {
    assert ":"[1..] == "";
  }

  lemma {:induction false} FieldsLaid(f: Flags, fs: seq<Field>, st: Scan, level: nat, first: bool)
    returns (after: Scan)
    requires forall i :: 0 <= i < |fs| ==> NumberTexts(fs[i].val)
    requires !st.quoted && !st.escaped && st.depth == level + 1
    requires if first then Opens(st.last) else !Opens(st.last) && st.last != ',' && st.last != ':'
    ensures Piece(f, st, PrintFields(Plain(f), fs, level, first), PrintFields(f, fs, level, first), after)
    ensures if fs == [] then after == st else Past(st, after)
    decreases fs, 0
  {
    hide Piece, Before, Gap, Print, Quoted, Colon, NumberTexts;
    if fs == [] {
      after := st;
      Nothing(f, st);
    } else {
      var p, fd: Field := Plain(f), fs[0];
      assert fd decreases to fd.val;
      var mid := CommaLaid(f, st, first);
      var end := FieldLaid(f, fd, mid);
      after := FieldsLaid(f, fs[1..], end, level, false);
      var plain := Quoted(p, fd.key) + Colon(p) + Print(p, fd.val, level + 1);
      var out := Quoted(f, fd.key) + Colon(f) + Print(f, fd.val, level + 1);
      MemberJoined(f, st, first, mid, plain, out, end, PrintFields(p, fs[1..], level, false),
                   PrintFields(f, fs[1..], level, false), after);
      FieldsShape(f, fs, level, first);
      FieldsShape(p, fs, level, first);
    }
  }

  lemma FieldsShape(f: Flags, fs: seq<Field>, level: nat, first: bool)
    requires fs != []
    ensures PrintFields(f, fs, level, first) ==
            Comma(first) + Gap(f, level + 1) + (Quoted(f, fs[0].key) + Colon(f) + Print(f, fs[0].val, level + 1))
            + PrintFields(f, fs[1..], level, false)
  {
    hide Gap, Quoted, Print, Colon;
  }

  /**
   Without flags a printed text has no white space outside its strings, and in them no control character
   and slashes only as asked for; under any flags it is that text laid out.
   */
  lemma PrintedIsLaidOut(f: Flags, v: Json)
    requires NumberTexts(v)
    ensures Compact(f, BEGIN, Print(Plain(f), v, 0))
    ensures Print(f, v, 0) == Laid(f, BEGIN, Print(Plain(f), v, 0))
  {
    hide Laid, Compact, Print;
    var _ := ValueLaid(f, v, BEGIN);
    assert "" + Print(f, v, 0) == Print(f, v, 0);
  }

  lemma {:induction false} LaidKeepsLines(f: Flags, st: Scan, s: string)
    requires Compact(f, st, s) && !f.pretty
    ensures '\n' !in Laid(f, st, s)
    decreases |s|
  {
    if s != "" {
      LaidKeepsLines(f, Next(st, s[0]), s[1..]);
    }
  }

  /** Only PRETTY breaks lines. */
  lemma OneLine(f: Flags, v: Json)
    requires NumberTexts(v) && !f.pretty
    ensures '\n' !in Print(f, v, 0)
  {
    hide Laid, Compact, Print;
    PrintedIsLaidOut(f, v);
    LaidKeepsLines(f, BEGIN, Print(Plain(f), v, 0));
  }

  // ------------------------------------------------------------ and back

  predicate IsBlank(c: char) {
    c == ' ' || c == '\n' || c == '\t'
  }

  /** A text with the white space outside its strings taken out. */
  function Squeezed(st: Scan, s: string): string
    decreases |s|
  {
    if s == "" then ""
    else if !st.quoted && IsBlank(s[0]) then Squeezed(st, s[1..])
    else [s[0]] + Squeezed(Next(st, s[0]), s[1..])
  }

  lemma {:induction false} BlanksSqueezed(st: Scan, w: string, s: string)
    requires !st.quoted && forall i :: 0 <= i < |w| ==> IsBlank(w[i])
    ensures Squeezed(st, w + s) == Squeezed(st, s)
    decreases |w|
  {
    if w == "" {
      assert w + s == s;
    } else {
      assert (w + s)[1..] == w[1..] + s;
      BlanksSqueezed(st, w[1..], s);
    }
  }

  lemma BeforeIsBlank(f: Flags, st: Scan, c: char)
    ensures var w := Before(f, st, c); forall i :: 0 <= i < |w| ==> IsBlank(w[i])
  {
  }

  lemma {:induction false} SqueezedLaid(f: Flags, st: Scan, s: string)
    requires Compact(f, st, s)
    ensures Squeezed(st, Laid(f, st, s)) == s
    decreases |s|
  {
    hide Before, Next;
    if s != "" {
      var c, tail := s[0], Laid(f, Next(st, s[0]), s[1..]);
      SqueezedLaid(f, Next(st, c), s[1..]);
      assert ([c] + tail)[0] == c && ([c] + tail)[1..] == tail;
      if !st.quoted {
        var w := Before(f, st, c);
        BeforeIsBlank(f, st, c);
        BlanksSqueezed(st, w, [c] + tail);
        assert w + [c] + tail == w + ([c] + tail);
      } else {
        assert "" + [c] + tail == [c] + tail;
      }
    }
  }

  /** The flags add white space outside strings, and nothing else. */
  lemma FlagsAddBlanks(f: Flags, v: Json)
    requires NumberTexts(v)
    ensures Squeezed(BEGIN, Print(f, v, 0)) == Print(Plain(f), v, 0)
  {
    hide Laid, Compact, Print, Squeezed;
    PrintedIsLaidOut(f, v);
    SqueezedLaid(f, BEGIN, Print(Plain(f), v, 0));
  }
}
