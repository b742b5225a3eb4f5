/**
 The text of a tree, as the `*_to_json_string` functions write it, and why the escaped
 text of a string stands for that string.
 */
module JsonPrinter {
  import opened Basics
  import opened OrderedMap
  import opened JsonValue
  import opened Decimal
  import opened TokenerMachine
  import opened StringLiteral

  /** The JSON_C_TO_STRING_* flags that change the text (colours are not part of the model). */
  datatype Flags = Flags(spaced: bool, pretty: bool, prettyTab: bool, noSlashEscape: bool)

  function HexDigit(n: nat): char
    requires n < 16
  {
    "0123456789abcdef"[n]
  }

  /** How `json_escape_str` writes one character. */
  function EscapeChar(f: Flags, c: char): string {
    if c == 8 as char then "\\b"
    else if c == '\n' then "\\n"
    else if c == '\r' then "\\r"
    else if c == '\t' then "\\t"
    else if c == 12 as char then "\\f"
    else if c == '"' then "\\\""
    else if c == '\\' then "\\\\"
    else if c == '/' then if f.noSlashEscape then "/" else "\\/"
    else if c < ' ' then "\\u00" + [HexDigit(c as int / 16), HexDigit(c as int % 16)]
    else [c]
  }

  function Escape(f: Flags, s: string): string {
    if s == "" then "" else EscapeChar(f, s[0]) + Escape(f, s[1..])
  }

  function Quoted(f: Flags, s: string): string {
    "\"" + Escape(f, s) + "\""
  }

  function Repeat(c: char, n: nat): string {
    seq(n, _ => c)
  }

  function Indent(f: Flags, level: nat): string {
    if !f.pretty then ""
    else if f.prettyTab then Repeat('\t', level)
    else Repeat(' ', 2 * level)
  }

  /** White space before a member at `level`. */
  function Gap(f: Flags, level: nat): string {
    (if f.pretty then "\n" else "") + (if f.spaced && !f.pretty then " " else "") + Indent(f, level)
  }

  /** White space before the closing bracket of a container at `level`. */
  function ClosingGap(f: Flags, level: nat, hadChildren: bool): string {
    (if f.pretty && hadChildren then "\n" + Indent(f, level) else "")
    + (if f.spaced && !f.pretty then " " else "")
  }

  function Colon(f: Flags): string {
    if f.spaced then ": " else ":"
  }

  function Comma(first: bool): string {
    if first then "" else ","
  }

  function Print(f: Flags, v: Json, level: nat): string
    decreases v, 0
  {
    match v
    case Null => "null"
    case Bool(b) => if b then "true" else "false"
    case Int(i) => SignedDigits(i)
    case UInt(u) => SignedDigits(u)
    case Double(text) => text
    case Str(s) => Quoted(f, s)
    case Arr(es) => "[" + PrintElems(f, es, level, true) + ClosingGap(f, level, es != []) + "]"
    case Obj(fs) => "{" + PrintFields(f, fs, level, true) + ClosingGap(f, level, fs != []) + "}"
  }

  function PrintElems(f: Flags, es: seq<Json>, level: nat, first: bool): string
    decreases es, 1
  {
    if es == [] then ""
    else Comma(first) + Gap(f, level + 1) + Print(f, es[0], level + 1) + PrintElems(f, es[1..], level, false)
  }

  function PrintFields(f: Flags, fs: seq<Field>, level: nat, first: bool): string
    decreases fs, 1
  {
    if fs == [] then ""
    else
      var fd: Field := fs[0];
      assert fd decreases to fd.val;
      Comma(first) + Gap(f, level + 1) + Quoted(f, fs[0].key) + Colon(f) + Print(f, fs[0].val, level + 1)
      + PrintFields(f, fs[1..], level, false)
  }

  // ------------------------------------------------------------ escaped text as string items

  function ItemOf(f: Flags, c: char): Item {
    if c == 8 as char then Short('b')
    else if c == '\n' then Short('n')
    else if c == '\r' then Short('r')
    else if c == '\t' then Short('t')
    else if c == 12 as char then Short('f')
    else if c == '"' || c == '\\' then Short(c)
    else if c == '/' then if f.noSlashEscape then Raw('/') else Short('/')
    else if c < ' ' then Unit('0', '0', HexDigit(c as int / 16), HexDigit(c as int % 16))
    else Raw(c)
  }

  function ItemsOf(f: Flags, s: string): seq<Item> {
    if s == "" then [] else [ItemOf(f, s[0])] + ItemsOf(f, s[1..])
  }

  lemma HexDigitValue(n: nat)
    requires n < 16
    ensures IsHex(HexDigit(n)) && HexValue(HexDigit(n)) == n
  {
  }

  lemma EscapedControl(c: char)
    requires c < ' '
    ensures var i := Unit('0', '0', HexDigit(c as int / 16), HexDigit(c as int % 16));
            && ItemText(i) == "\\u00" + [i.c3, i.d]
            && ItemOk('"', i) && ItemEffect('"', 0, i) == Effect([c], 0)
  {
    HexDigitValue(c as int / 16);
    HexDigitValue(c as int % 16);
    HexDigitValue(0);
    assert HexDigit(0) == '0';
  }

  lemma EscapedChar(f: Flags, c: char)
    ensures ItemText(ItemOf(f, c)) == EscapeChar(f, c)
    ensures ItemOk('"', ItemOf(f, c))
    ensures ItemEffect('"', 0, ItemOf(f, c)) == Effect([c], 0)
  {
    hide UnitEffect, UnitValue, HexDigit;
    if c < ' ' {
      EscapedControl(c);
    }
  }

  /**
   No item the RFC allows for a character is shorter than what is written for it, but for the slash,
   which is escaped without need unless the flags ask for a bare one.
   */
  lemma ShortestEscape(f: Flags, c: char, i: Item)
    requires ItemOk('"', i) && ItemEffect('"', 0, i) == Effect([c], 0) && (i.Raw? ==> c >= ' ')
    ensures |EscapeChar(f, c)| <= |ItemText(i)| + (if c == '/' && !f.noSlashEscape then 1 else 0)
  {
    hide UnitEffect;
    assert i.Short? ==> "" + [SimpleEscape(i.e).value] == [SimpleEscape(i.e).value];
    assert i.Raw? ==> "" + [i.c] == [i.c];
  }

  /** The escaped text is the text of string items whose meaning is the string itself. */
  lemma {:induction false} EscapeMeans(f: Flags, s: string)
    ensures Text(ItemsOf(f, s)) == Escape(f, s)
    ensures ItemsOk('"', ItemsOf(f, s))
    ensures Meaning('"', 0, ItemsOf(f, s)) == s
  {
    if s != "" {
      EscapedChar(f, s[0]);
      EscapeMeans(f, s[1..]);
      assert ItemsOf(f, s)[1..] == ItemsOf(f, s[1..]);
    }
  }
}
