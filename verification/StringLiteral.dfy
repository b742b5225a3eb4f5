/**
 The inside of a quoted string as a list of items (section 7 of RFC 8259), what the
 tokener makes of it, what the \uXXXX escapes ought to mean, and exactly when the two agree.
 */
module StringLiteral {
  import opened Basics
  import opened OrderedMap
  import opened JsonValue
  import opened TokenerMachine
  import opened Utf8

  datatype Item = Raw(c: char) | Short(e: char) | Unit(a: char, b: char, c3: char, d: char)

  predicate ItemOk(q: char, i: Item) {
    match i
    case Raw(c) => c != q && c != '\\' && c != NUL
    case Short(e) => SimpleEscape(e).Some?
    case Unit(a, b, c, d) => IsHex(a) && IsHex(b) && IsHex(c) && IsHex(d)
  }

  predicate ItemsOk(q: char, items: seq<Item>) {
    forall i :: 0 <= i < |items| ==> ItemOk(q, items[i])
  }

  function ItemText(i: Item): string {
    match i
    case Raw(c) => [c]
    case Short(e) => ['\\', e]
    case Unit(a, b, c, d) => ['\\', 'u', a, b, c, d]
  }

  function Text(items: seq<Item>): string {
    if items == [] then "" else ItemText(items[0]) + Text(items[1..])
  }

  /** The 16-bit unit named by four hexadecimal digits. */
  function UnitValue(i: Item): (u: nat)
    requires i.Unit? && IsHex(i.a) && IsHex(i.b) && IsHex(i.c3) && IsHex(i.d)
    ensures u < 0x10000
  {
    HexValue(i.a) * 0x1000 + HexValue(i.b) * 0x100 + HexValue(i.c3) * 0x10 + HexValue(i.d)
  }

  // ------------------------------------------------------------ what the tokener makes of it

  /** `high` is the surrogate waiting for its partner, or zero. */
  function Flush(high: nat): string {
    if high != 0 then REPLACEMENT else ""
  }

  datatype Effect = Effect(out: string, high: nat)

  function PointEffect(pre: string, u: nat): Effect {
    if u >= 0x800 && IsHighSurrogate(u) then Effect(pre, u)
    else if u >= 0x800 && IsLowSurrogate(u) then Effect(pre + REPLACEMENT, 0)
    else Effect(pre + Utf8Bytes(u), 0)
  }

  function UnitEffect(high: nat, u: nat): Effect {
    if high != 0 && IsLowSurrogate(u) then PointEffect("", DecodePair(high, u))
    else PointEffect(Flush(high), u)
  }

  function ItemEffect(q: char, high: nat, i: Item): Effect
    requires ItemOk(q, i)
  {
    match i
    case Raw(c) => Effect(Flush(high) + [c], 0)
    case Short(e) => Effect(Flush(high) + [SimpleEscape(e).value], 0)
    case Unit(_, _, _, _) => UnitEffect(high, UnitValue(i))
  }

  function Meaning(q: char, high: nat, items: seq<Item>): string
    requires ItemsOk(q, items)
    decreases |items|
  {
    if items == [] then Flush(high)
    else
      var e := ItemEffect(q, high, items[0]);
      e.out + Meaning(q, e.high, items[1..])
  }

  // ------------------------------------------------------------ what it ought to mean

  predicate High(u: nat) {
    0xD800 <= u < 0xDC00
  }

  predicate Low(u: nat) {
    0xDC00 <= u < 0xE000
  }

  predicate StartsLow(q: char, items: seq<Item>)
    requires ItemsOk(q, items)
  {
    items != [] && items[0].Unit? && Low(UnitValue(items[0]))
  }

  /** The supplementary code point of a surrogate pair (RFC 8259 section 7, UTF-16). */
  function PairPoint(hi: nat, lo: nat): (cp: nat)
    requires High(hi) && Low(lo)
    ensures 0x10000 <= cp < 0x110000
  {
    0x10000 + (hi - 0xD800) * 0x400 + (lo - 0xDC00)
  }

  /** A pair is its code point; a surrogate without its partner is U+FFFD; all else stands for itself. */
  function Intended(q: char, items: seq<Item>): string
    requires ItemsOk(q, items)
    decreases |items|
  {
    if items == [] then ""
    else
      var rest := items[1..];
      match items[0]
      case Raw(c) => [c] + Intended(q, rest)
      case Short(e) => [SimpleEscape(e).value] + Intended(q, rest)
      case Unit(_, _, _, _) =>
        var u := UnitValue(items[0]);
        if High(u) && StartsLow(q, rest) then
          Utf8Bytes(PairPoint(u, UnitValue(rest[0]))) + Intended(q, rest[1..])
        else if High(u) || Low(u) then REPLACEMENT + Intended(q, rest)
        else Utf8Bytes(u) + Intended(q, rest)
  }

  /**
   The surrogate tests mask all but bits 10 to 15, so a code point that has the surrogate
   pattern there is taken for a surrogate itself.
   */
  predicate Misread(cp: nat) {
    IsHighSurrogate(cp) || IsLowSurrogate(cp)
  }

  predicate PairsSound(q: char, items: seq<Item>)
    requires ItemsOk(q, items)
    decreases |items|
  {
    items == [] ||
    var rest := items[1..];
    if items[0].Unit? && High(UnitValue(items[0])) && StartsLow(q, rest) then
      !Misread(PairPoint(UnitValue(items[0]), UnitValue(rest[0]))) && PairsSound(q, rest[1..])
    else PairsSound(q, rest)
  }

  lemma SixteenBits(u: nat)
    requires u < 0x10000
    ensures IsHighSurrogate(u) <==> High(u)
    ensures IsLowSurrogate(u) <==> Low(u)
  {
  }

  lemma PairDecodes(hi: nat, lo: nat)
    requires High(hi) && Low(lo)
    ensures DecodePair(hi, lo) == PairPoint(hi, lo)
  {
  }

  lemma DecodeRange(hi: nat, lo: nat)
    ensures 0x10000 <= DecodePair(hi, lo) < 0x110000
  {
  }

  lemma LoneEffect(q: char, high: nat, i: Item)
    requires ItemOk(q, i) && high != 0 && !(i.Unit? && Low(UnitValue(i)))
    ensures var e := ItemEffect(q, 0, i); ItemEffect(q, high, i) == Effect(REPLACEMENT + e.out, e.high)
  {
    hide Utf8Bytes, IsHighSurrogate, IsLowSurrogate, DecodePair, UnitValue, Low;
    if i.Unit? {
      SixteenBits(UnitValue(i));
      LoneUnit(high, UnitValue(i));
    } else {
      var out := ItemEffect(q, 0, i).out;
      assert out == "" + out;
      assert Flush(high) == REPLACEMENT;
    }
  }

  lemma LoneUnit(high: nat, u: nat)
    requires high != 0 && !IsLowSurrogate(u)
    ensures var e := UnitEffect(0, u); UnitEffect(high, u) == Effect(REPLACEMENT + e.out, e.high)
  {
    hide Utf8Bytes, IsHighSurrogate, IsLowSurrogate, DecodePair;
    assert REPLACEMENT + ("" + Utf8Bytes(u)) == REPLACEMENT + Utf8Bytes(u);
    assert REPLACEMENT + "" == REPLACEMENT;
  }

  /** A waiting surrogate not followed by a low one becomes U+FFFD, whatever follows. */
  lemma LoneHigh(q: char, high: nat, items: seq<Item>)
    requires ItemsOk(q, items) && high != 0 && !StartsLow(q, items)
    ensures Meaning(q, high, items) == REPLACEMENT + Meaning(q, 0, items)
  {
    hide ItemEffect, UnitValue, Low;
    if items == [] {
      assert Flush(high) == REPLACEMENT + Flush(0);
    } else {
      LoneEffect(q, high, items[0]);
      var e := ItemEffect(q, 0, items[0]);
      var tail := Meaning(q, e.high, items[1..]);
      assert REPLACEMENT + e.out + tail == REPLACEMENT + (e.out + tail);
    }
  }

  /** Once a code point is misread as a high surrogate, its own encoding is never written. */
  lemma {:induction false} MisreadHighIsLost(q: char, high: nat, items: seq<Item>, cp: nat, x: string)
    requires ItemsOk(q, items) && high != 0 && 0x10000 <= cp < 0x110000 && Misread(cp)
    ensures Meaning(q, high, items) != Utf8Bytes(cp) + x
    decreases |items|, 1
  {
    hide Utf8Bytes, IsHighSurrogate, IsLowSurrogate, DecodePair, UnitValue;
    ReplacementIsFFFD();
    if items != [] && items[0].Unit? && IsLowSurrogate(UnitValue(items[0])) {
      MisreadPairIsLost(q, DecodePair(high, UnitValue(items[0])), high, items, cp, x);
    } else if Meaning(q, high, items) == Utf8Bytes(cp) + x {
      if items != [] && items[0].Unit? {
        assert ItemOk(q, items[0]);
        SixteenBits(UnitValue(items[0]));
      }
      LoneHigh(q, high, items);
      EncodeInjective(0xFFFD, cp, Meaning(q, 0, items), x);
      MisreadIsNotFFFD(cp);
    }
  }

  lemma MisreadIsNotFFFD(cp: nat)
    requires Misread(cp)
    ensures cp != 0xFFFD
  {
  }

  lemma {:induction false} MisreadPairIsLost(q: char, v: nat, high: nat, items: seq<Item>, cp: nat, x: string)
    requires ItemsOk(q, items) && high != 0 && 0x10000 <= cp < 0x110000 && Misread(cp)
    requires items != [] && items[0].Unit? && IsLowSurrogate(UnitValue(items[0]))
    requires v == DecodePair(high, UnitValue(items[0]))
    ensures Meaning(q, high, items) != Utf8Bytes(cp) + x
    decreases |items|, 0
  {
    hide Utf8Bytes, IsHighSurrogate, IsLowSurrogate, DecodePair, UnitValue;
    ReplacementIsFFFD();
    DecodeRange(high, UnitValue(items[0]));
    var rest := items[1..];
    var e := PointEffect("", v);
    assert Meaning(q, high, items) == e.out + Meaning(q, e.high, rest);
    if IsHighSurrogate(v) {
      MisreadHighIsLost(q, v, rest, cp, x);
    } else if Meaning(q, high, items) == Utf8Bytes(cp) + x {
      EncodeInjective(if IsLowSurrogate(v) then 0xFFFD else v, cp, Meaning(q, 0, rest), x);
    }
  }

  lemma Cancel(a: string, x: string, y: string)
    ensures a + x == a + y <==> x == y
  {
    assert (a + x)[|a|..] == x;
    assert (a + y)[|a|..] == y;
  }

  predicate StartsPair(q: char, items: seq<Item>)
    requires ItemsOk(q, items)
  {
    items != [] && items[0].Unit? && High(UnitValue(items[0])) && StartsLow(q, items[1..])
  }

  /** An item that does not begin a pair contributes the same text to both readings. */
  lemma SingleItem(q: char, items: seq<Item>) returns (out: string)
    requires ItemsOk(q, items) && items != [] && !StartsPair(q, items)
    ensures Meaning(q, 0, items) == out + Meaning(q, 0, items[1..])
    ensures Intended(q, items) == out + Intended(q, items[1..])
    ensures PairsSound(q, items) <==> PairsSound(q, items[1..])
  {
    hide ItemEffect, Utf8Bytes, High, Low, UnitValue, HexValue, IsHex;
    assert ItemOk(q, items[0]);
    var e := ItemEffect(q, 0, items[0]);
    if items[0].Unit? && High(UnitValue(items[0])) {
      HighAlone(q, UnitValue(items[0]), items[0]);
      LoneHigh(q, e.high, items[1..]);
      assert "" + Meaning(q, e.high, items[1..]) == Meaning(q, e.high, items[1..]);
      out := REPLACEMENT;
    } else {
      OtherItem(q, items[0]);
      out := e.out;
    }
  }

  lemma HighAlone(q: char, u: nat, i: Item)
    requires ItemOk(q, i) && i.Unit? && UnitValue(i) == u && High(u)
    ensures ItemEffect(q, 0, i) == Effect("", u) && u != 0
  {
    hide UnitValue, HexValue, IsHex;
    SixteenBits(u);
  }

  lemma OtherItem(q: char, i: Item)
    requires ItemOk(q, i) && !(i.Unit? && High(UnitValue(i)))
    ensures ItemEffect(q, 0, i) == Effect(match i
                                          case Raw(c) => [c]
                                          case Short(e) => [SimpleEscape(e).value]
                                          case Unit(_, _, _, _) =>
                                            var u := UnitValue(i);
                                            if Low(u) then REPLACEMENT else Utf8Bytes(u), 0)
  {
    hide UnitValue, HexValue, IsHex, Utf8Bytes;
    if i.Unit? {
      SixteenBits(UnitValue(i));
    }
  }

  /**
   Exactly when the tokener decodes the escapes of a string rightly: if and only if no
   surrogate pair in it names a code point with the surrogate pattern in bits 10 to 15.
   */
  lemma {:induction false} MeaningIntendedExactly(q: char, items: seq<Item>)
    requires ItemsOk(q, items)
    ensures Meaning(q, 0, items) == Intended(q, items) <==> PairsSound(q, items)
    decreases |items|, 1
  {
    if StartsPair(q, items) {
      PairExactly(q, items);
    } else if items != [] {
      var out := SingleItem(q, items);
      var rest := items[1..];
      MeaningIntendedExactly(q, rest);
      Cancel(out, Meaning(q, 0, rest), Intended(q, rest));
    }
  }

  function FirstPair(q: char, items: seq<Item>): (cp: nat)
    requires ItemsOk(q, items) && StartsPair(q, items)
    ensures 0x10000 <= cp < 0x110000
  {
    PairPoint(UnitValue(items[0]), UnitValue(items[1]))
  }

  lemma PairItem(q: char, items: seq<Item>)
    requires ItemsOk(q, items) && StartsPair(q, items)
    ensures var cp := FirstPair(q, items);
            var e := PointEffect("", cp);
            && Meaning(q, 0, items) == e.out + Meaning(q, e.high, items[2..])
            && Intended(q, items) == Utf8Bytes(cp) + Intended(q, items[2..])
            && (PairsSound(q, items) <==> !Misread(cp) && PairsSound(q, items[2..]))
  {
    hide Utf8Bytes;
    var rest := items[1..];
    var hi, lo := UnitValue(items[0]), UnitValue(rest[0]);
    SixteenBits(hi);
    SixteenBits(lo);
    PairDecodes(hi, lo);
    assert rest[1..] == items[2..];
    assert Meaning(q, 0, items) == Meaning(q, hi, rest);
  }

  lemma {:induction false} PairExactly(q: char, items: seq<Item>)
    requires ItemsOk(q, items) && StartsPair(q, items)
    ensures Meaning(q, 0, items) == Intended(q, items) <==> PairsSound(q, items)
    decreases |items|, 0
  {
    hide Meaning, Intended, PairsSound, Utf8Bytes, FirstPair, IsHighSurrogate, IsLowSurrogate, UnitValue;
    PairItem(q, items);
    var cp, tail := FirstPair(q, items), items[2..];
    if IsHighSurrogate(cp) {
      MisreadHighIsLost(q, cp, tail, cp, Intended(q, tail));
    } else if IsLowSurrogate(cp) {
      ReplacementIsFFFD();
      if Meaning(q, 0, items) == Intended(q, items) {
        EncodeInjective(0xFFFD, cp, Meaning(q, 0, tail), Intended(q, tail));
      }
    } else {
      MeaningIntendedExactly(q, tail);
      Cancel(Utf8Bytes(cp), Meaning(q, 0, tail), Intended(q, tail));
    }
  }
}
