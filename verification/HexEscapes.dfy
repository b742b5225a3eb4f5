/**
 What a \uXXXX escape comes out as, from the quoted text to the value of the parse: every spelling of the
 four digits names its code point.
 */
module HexEscapes {
  import opened Basics
  import opened JsonValue
  import opened TokenerMachine
  import opened Utf8
  import opened StringLiteral
  import opened TokenerRun
  import opened TokenerReset
  import opened TokenerExamples

  const LOWER := "0123456789abcdef"
  const UPPER := "0123456789ABCDEF"

  /** Four hexadecimal digits of `n`, the highest first, each in either case. */
  predicate Spells(digits: string, n: nat) {
    && n < 0x10000 && |digits| == 4
    && SpellsDigit(digits[0], n / 0x1000)
    && SpellsDigit(digits[1], n / 0x100 % 0x10)
    && SpellsDigit(digits[2], n / 0x10 % 0x10)
    && SpellsDigit(digits[3], n % 0x10)
  }

  predicate SpellsDigit(c: char, d: nat) {
    d < 16 && (c == LOWER[d] || c == UPPER[d])
  }

  function Escape(digits: string): string {
    "\\u" + digits
  }

  lemma DigitReads(c: char, d: nat)
    requires SpellsDigit(c, d)
    ensures IsHex(c) && HexValue(c) == d
  {
  }

  function UnitOf(digits: string): Item
    requires |digits| == 4
  {
    Unit(digits[0], digits[1], digits[2], digits[3])
  }

  lemma FourDigits(n: nat)
    ensures n == n / 0x1000 * 0x1000 + n / 0x100 % 0x10 * 0x100 + n / 0x10 % 0x10 * 0x10 + n % 0x10
  {
    assert n == n / 0x10 * 0x10 + n % 0x10;
    assert n / 0x10 == n / 0x100 * 0x10 + n / 0x10 % 0x10;
    assert n / 0x100 == n / 0x1000 * 0x10 + n / 0x100 % 0x10;
  }

  lemma UnitReads(q: char, digits: string, n: nat)
    requires Spells(digits, n)
    ensures ItemOk(q, UnitOf(digits)) && UnitValue(UnitOf(digits)) == n && ItemText(UnitOf(digits)) == Escape(digits)
  {
    hide HexValue, IsHex, SpellsDigit;
    DigitReads(digits[0], n / 0x1000);
    DigitReads(digits[1], n / 0x100 % 0x10);
    DigitReads(digits[2], n / 0x10 % 0x10);
    DigitReads(digits[3], n % 0x10);
    FourDigits(n);
    assert digits == [digits[0], digits[1], digits[2], digits[3]];
  }

  /** A quoted text of items, parsed whole by a new tokener. */
  lemma QuotedParses(k: Config, items: seq<Item>)
    requires ItemsOk('"', items)
    ensures var o := Parse(k, FRESH, ['"'] + Text(items) + ['"']);
            o.Ok? && o.value == Str(Meaning('"', 0, items))
  {
    hide Call, Eat, Step, Meaning, Text;
    var rest := Text(items) + ['"'];
    assert ['"'] + rest == ['"'] + Text(items) + ['"'];
    var q := QuoteOpens(k, FRESH, rest);
    var r := EatItems(k, q, StringS, '"', 0, "", items);
    EatThenCall(k, q, rest, []);
    assert rest + [] == rest;
    assert "" + Meaning('"', 0, items) == Meaning('"', 0, items);
    EndsWhole(k, r);
  }

  lemma OneMeans(i: Item, n: nat)
    requires ItemOk('"', i) && i.Unit? && UnitValue(i) == n && n < 0x10000 && !High(n) && !Low(n)
    ensures Meaning('"', 0, [i]) == Utf8Bytes(n) && Text([i]) == ItemText(i)
  {
    hide UnitValue, Utf8Bytes;
    SixteenBits(n);
    assert [i][1..] == [];
    assert "" + Utf8Bytes(n) + "" == Utf8Bytes(n);
  }

  /** Every code point outside the surrogates is what UTF-8 reads from the string its escape is parsed to. */
  lemma EscapeReads(k: Config, digits: string, n: nat)
    requires Spells(digits, n) && !(0xD800 <= n < 0xE000)
    ensures var o := Parse(k, FRESH, "\"" + Escape(digits) + "\"");
            o.Ok? && o.value.Str? && DecodeFirst(o.value.s) == Point(n, "")
  {
    hide Parse, Meaning, Utf8Bytes, DecodeFirst, Text, SpellsDigit, UnitValue, ItemOk;
    var i := UnitOf(digits);
    UnitReads('"', digits, n);
    assert ItemsOk('"', [i]);
    QuotedParses(k, [i]);
    OneMeans(i, n);
    assert ['"'] + Escape(digits) + ['"'] == "\"" + Escape(digits) + "\"";
    EncodeDecodes(n, "");
    assert Utf8Bytes(n) + "" == Utf8Bytes(n);
  }

  lemma PairReadsMeaning(digits: string, digits': string, hi: nat, lo: nat) returns (items: seq<Item>)
    requires Spells(digits, hi) && Spells(digits', lo) && High(hi) && Low(lo)
    ensures items == [UnitOf(digits), UnitOf(digits')] && ItemsOk('"', items)
    ensures Text(items) == Escape(digits) + Escape(digits')
    ensures Meaning('"', 0, items) == Utf8Bytes(PairPoint(hi, lo)) <==> !Misread(PairPoint(hi, lo))
  {
    hide Meaning, Intended, Utf8Bytes, SpellsDigit, UnitValue, ItemOk, Misread, ItemText;
    var i, j := UnitOf(digits), UnitOf(digits');
    items := [i, j];
    UnitReads('"', digits, hi);
    UnitReads('"', digits', lo);
    assert items[1..] == [j] && [j][1..] == [] && items[2..] == [];
    assert Text([j]) == ItemText(j) + "" == ItemText(j);
    assert StartsPair('"', items) && FirstPair('"', items) == PairPoint(hi, lo);
    PairItem('"', items);
    MeaningIntendedExactly('"', items);
    NothingIntended();
    assert Utf8Bytes(PairPoint(hi, lo)) + "" == Utf8Bytes(PairPoint(hi, lo));
  }

  lemma NothingIntended()
    ensures Intended('"', []) == "" && PairsSound('"', [])
  {
  }

  /** The two escapes of a surrogate pair are parsed to its code point if and only if the pair is not misread. */
  lemma PairReadsExactly(k: Config, digits: string, digits': string, hi: nat, lo: nat)
    requires Spells(digits, hi) && Spells(digits', lo) && 0xD800 <= hi < 0xDC00 <= lo < 0xE000
    ensures var o := Parse(k, FRESH, "\"" + Escape(digits) + Escape(digits') + "\"");
            var cp := 0x10000 + (hi - 0xD800) * 0x400 + (lo - 0xDC00);
            && o.Ok? && o.value.Str?
            && (DecodeFirst(o.value.s) == Point(cp, "") <==> cp / 0x400 % 64 != 54 && cp / 0x400 % 64 != 55)
  {
    hide Parse, Meaning, Utf8Bytes, DecodeFirst, Text, SpellsDigit, UnitValue, ItemOk;
    var items := PairReadsMeaning(digits, digits', hi, lo);
    QuotedParses(k, items);
    var cp, t := PairPoint(hi, lo), Meaning('"', 0, items);
    assert ['"'] + (Escape(digits) + Escape(digits')) + ['"'] == "\"" + Escape(digits) + Escape(digits') + "\"";
    EncodeDecodes(cp, "");
    assert Utf8Bytes(cp) + "" == Utf8Bytes(cp);
    if t != Utf8Bytes(cp) && DecodeFirst(t) == Point(cp, "") {
      MisreadMeans(digits, digits', hi, lo, items);
    }
  }

  /** A misread pair comes out as U+FFFD. */
  lemma MisreadMeans(digits: string, digits': string, hi: nat, lo: nat, items: seq<Item>)
    requires Spells(digits, hi) && Spells(digits', lo) && High(hi) && Low(lo)
    requires items == [UnitOf(digits), UnitOf(digits')] && ItemsOk('"', items) && Misread(PairPoint(hi, lo))
    ensures DecodeFirst(Meaning('"', 0, items)) == Point(0xFFFD, "") && PairPoint(hi, lo) != 0xFFFD
  {
    hide Intended, Utf8Bytes, SpellsDigit, UnitValue, ItemOk, ItemText, DecodeFirst;
    UnitReads('"', digits, hi);
    UnitReads('"', digits', lo);
    assert items[2..] == [];
    PairItem('"', items);
    ReplacementIsFFFD();
    EncodeDecodes(0xFFFD, "");
    assert Utf8Bytes(0xFFFD) + "" == Utf8Bytes(0xFFFD) == REPLACEMENT;
    assert "" + REPLACEMENT == REPLACEMENT && REPLACEMENT + "" == REPLACEMENT;
  }
}
