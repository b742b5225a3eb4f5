/**
 base64.c: the encoder and decoder that SCRAM messages use, proved against the encoding of
 section 4 of RFC 4648. Characters are byte codes.
 */
module Base64 {
  import opened Basics

  const PAD: byte := 61

  /** Table 1 of RFC 4648. */
  function Symbol(v: int): (c: byte)
    requires 0 <= v < 64
    ensures Lookup(c) == v && c != PAD
  {
    if v < 26 then 65 + v
    else if v < 52 then 97 + (v - 26)
    else if v < 62 then 48 + (v - 52)
    else if v == 62 then 43
    else 47
  }

  /** `b64lookup` behind its guard: -1 for a character outside the alphabet. */
  function Lookup(c: byte): (v: int)
    ensures -1 <= v < 64
  {
    if 65 <= c <= 90 then c - 65
    else if 97 <= c <= 122 then c - 97 + 26
    else if 48 <= c <= 57 then c - 48 + 52
    else if c == 43 then 62
    else if c == 47 then 63
    else -1
  }

  const CAPITALS := "ABCDEFGHIJKLMNOPQRSTUVWXYZ"
  const SMALLS := "abcdefghijklmnopqrstuvwxyz"
  const OTHERS := "0123456789+/"

  /** The alphabet of Table 1 of RFC 4648 as one text. */
  const TABLE: string := CAPITALS + SMALLS + OTHERS

  lemma CapitalAt(v: int)
    requires 0 <= v < 26
    ensures |CAPITALS| == 26 && CAPITALS[v] as int == 65 + v
  {
  }

  lemma SmallAt(v: int)
    requires 0 <= v < 26
    ensures |SMALLS| == 26 && SMALLS[v] as int == 97 + v
  {
  }

  /** Every value is written as the character in its place. */
  lemma SymbolsOfTable(v: int)
    requires 0 <= v < 64
    ensures |TABLE| == 64 && Symbol(v) == TABLE[v] as int && PAD == '=' as int
  {
    hide Lookup;
    if v < 26 {
      CapitalAt(v);
      assert TABLE[v] == CAPITALS[v];
    } else if v < 52 {
      SmallAt(v - 26);
      assert TABLE[v] == SMALLS[v - 26];
    } else {
      assert TABLE[v] == OTHERS[v - 52];
    }
  }

  /** Only these characters have a value, which is their place. */
  lemma ValuesOfTable(c: byte)
    ensures |TABLE| == 64 && (Lookup(c) == -1 <==> forall v :: 0 <= v < 64 ==> TABLE[v] as int != c)
    ensures Lookup(c) >= 0 ==> TABLE[Lookup(c)] as int == c
  {
    hide Symbol, Lookup;
    forall v | 0 <= v < 64
      ensures TABLE[v] as int != c || Lookup(c) == v
    {
      SymbolsOfTable(v);
    }
    SymbolsOfTable(0);
    if Lookup(c) >= 0 {
      SymbolsOfTable(Lookup(c));
      SymbolsAreUnique(c);
    }
  }

  lemma SymbolsAreUnique(c: byte)
    requires Lookup(c) >= 0
    ensures Symbol(Lookup(c)) == c
  {
  }

  lemma Product(a: int, b: int)
    requires a >= 0 && b >= 0
    ensures a * b >= 0
  {
  }

  lemma Quotient(n: int, d: int, q: int, r: int)
    requires d > 0 && n == q * d + r && 0 <= r < d
    ensures n / d == q && n % d == r
  {
    var m, s := n / d, n % d;
    assert (m - q) * d == r - s by {
      assert n == d * m + s;
      assert (m - q) * d == m * d - q * d;
    }
    if m > q {
      Product(m - q - 1, d);
    } else if m < q {
      Product(q - m - 1, d);
    }
  }

  /** The 24-bit number of three bytes. */
  function Number(a: byte, b: byte, c: byte): (n: int)
    ensures 0 <= n < 0x100_0000
  {
    a * 0x1_0000 + b * 0x100 + c
  }

  lemma NumberBytes(a: byte, b: byte, c: byte)
    ensures var n := Number(a, b, c); n / 0x1_0000 == a && n / 0x100 % 0x100 == b && n % 0x100 == c
  {
    var n := Number(a, b, c);
    Quotient(n, 0x1_0000, a, b * 0x100 + c);
    Quotient(n, 0x100, a * 0x100 + b, c);
    Quotient(a * 0x100 + b, 0x100, a, b);
  }

  /** The first `k` symbols of a 24-bit number, padded to four. */
  function Quartet(n: int, k: int): (q: seq<byte>)
    requires 0 <= n < 0x100_0000
    ensures |q| == 4
  {
    [Symbol(n / 0x4_0000),
     Symbol(n / 0x1000 % 64),
     if k > 2 then Symbol(n / 64 % 64) else PAD,
     if k > 3 then Symbol(n % 64) else PAD]
  }

  /** The base64 text of a byte string, RFC 4648 section 4. */
  function Encoding(s: seq<byte>): seq<byte> {
    if |s| == 0 then []
    else if |s| == 1 then Quartet(Number(s[0], 0, 0), 2)
    else if |s| == 2 then Quartet(Number(s[0], s[1], 0), 3)
    else Quartet(Number(s[0], s[1], s[2]), 4) + Encoding(s[3..])
  }

  /** The value a character adds to a decoding group; padding counts as zero. */
  function Value(c: byte): (v: int)
    ensures -1 <= v < 64
  {
    if c == PAD then 0 else Lookup(c)
  }

  /** The 24-bit number of four characters. */
  function Gathered(q: seq<byte>): (n: int)
    requires |q| == 4 && forall i :: 0 <= i < 4 ==> Value(q[i]) >= 0
    ensures 0 <= n < 0x100_0000
  {
    Value(q[0]) * 0x4_0000 + Value(q[1]) * 0x1000 + Value(q[2]) * 64 + Value(q[3])
  }

  /** Where the padding of a group puts `end`: -1 for a misplaced pad. */
  function EndOf(q: seq<byte>, end: int): int
    requires |q| == 4
  {
    if end != 0 then end
    else if q[0] == PAD || q[1] == PAD then -1
    else if q[2] == PAD then 1
    else if q[3] == PAD then 2
    else 0
  }

  function Bytes(n: int, end: int): (bs: seq<byte>)
    requires 0 <= n < 0x100_0000 && 0 <= end <= 2
    ensures |bs| == if end == 0 then 3 else end
  {
    if end == 0 then [n / 0x1_0000, n / 0x100 % 0x100, n % 0x100]
    else if end == 2 then [n / 0x1_0000, n / 0x100 % 0x100]
    else [n / 0x1_0000]
  }

  /** What the decoder makes of a text, group by group; None when it fails. */
  function Decoding(t: seq<byte>, end: int): (r: Option<seq<byte>>)
    requires 0 <= end <= 2
  {
    if t == [] then Some([])
    else if |t| < 4 then None
    else if exists i :: 0 <= i < 4 && Value(t[i]) < 0 then None
    else
      var q := t[..4];
      var e := EndOf(q, end);
      if e < 0 then None
      else
        var rest := Decoding(t[4..], e);
        if rest.None? then None else Some(Bytes(Gathered(q), e) + rest.value)
  }

  function EncLen(srclen: int): int
    requires 0 <= srclen && (srclen + 2) * 4 <= INT_MAX
  {
    (srclen + 2) * 4 / 3
  }

  function DecLen(srclen: int): int
    requires 0 <= srclen && srclen * 3 <= INT_MAX
  {
    srclen * 3 / 4
  }

  // ------------------------------------------------------------ the encoding and its inverse

  /** The same 24 bits as four sextets and as three bytes. */
  lemma Sextets(v0: int, v1: int, v2: int, v3: int) returns (n: int)
    requires 0 <= v0 < 64 && 0 <= v1 < 64 && 0 <= v2 < 64 && 0 <= v3 < 64
    ensures n == v0 * 0x4_0000 + v1 * 0x1000 + v2 * 64 + v3 && 0 <= n < 0x100_0000
    ensures n / 0x4_0000 == v0 && n / 0x1000 % 64 == v1 && n / 64 % 64 == v2 && n % 64 == v3
    ensures n / 0x1_0000 == v0 * 4 + v1 / 16
    ensures n / 0x100 % 0x100 == v1 % 16 * 16 + v2 / 4
    ensures n % 0x100 == v2 % 4 * 64 + v3
  {
    n := v0 * 0x4_0000 + v1 * 0x1000 + v2 * 64 + v3;
    Quotient(n, 0x4_0000, v0, v1 * 0x1000 + v2 * 64 + v3);
    Quotient(n, 0x1000, v0 * 64 + v1, v2 * 64 + v3);
    Quotient(v0 * 64 + v1, 64, v0, v1);
    Quotient(n, 64, v0 * 0x1000 + v1 * 64 + v2, v3);
    Quotient(v0 * 0x1000 + v1 * 64 + v2, 64, v0 * 64 + v1, v2);
    var h, l, a, b := v1 / 16, v1 % 16, v2 / 4, v2 % 4;
    Quotient(n, 0x1_0000, v0 * 4 + h, l * 0x1000 + v2 * 64 + v3);
    Quotient(n, 0x100, (v0 * 4 + h) * 0x100 + l * 16 + a, b * 64 + v3);
    Quotient((v0 * 4 + h) * 0x100 + l * 16 + a, 0x100, v0 * 4 + h, l * 16 + a);
  }

  /** A decoder's turn: one group of characters it knows. */
  lemma DecodingStep(q: seq<byte>, rest: seq<byte>, end: int)
    requires |q| == 4 && (forall i :: 0 <= i < 4 ==> Value(q[i]) >= 0) && 0 <= end <= 2 && EndOf(q, end) >= 0
    ensures Decoding(q + rest, end) ==
            var r := Decoding(rest, EndOf(q, end));
            if r.None? then None else Some(Bytes(Gathered(q), EndOf(q, end)) + r.value)
  {
    hide Value, Gathered, Bytes;
    var t := q + rest;
    assert t[..4] == q && t[4..] == rest;
    assert forall i :: 0 <= i < 4 ==> t[i] == q[i];
  }

  lemma QuartetOf(v0: int, v1: int, v2: int, v3: int, k: int)
    requires 0 <= v0 < 64 && 0 <= v1 < 64 && 0 <= v2 < 64 && 0 <= v3 < 64
    ensures Quartet(v0 * 0x4_0000 + v1 * 0x1000 + v2 * 64 + v3, k) ==
            [Symbol(v0), Symbol(v1), if k > 2 then Symbol(v2) else PAD, if k > 3 then Symbol(v3) else PAD]
  {
    hide Symbol;
    var n := Sextets(v0, v1, v2, v3);
  }

  /** Decoding a group of the encoding gives the group's number back. */
  lemma GroupDecodes(a: byte, b: byte, c: byte, k: int)
    requires 2 <= k <= 4 && (k < 3 ==> b == 0) && (k < 4 ==> c == 0)
    ensures var q := Quartet(Number(a, b, c), k);
            && (forall i :: 0 <= i < 4 ==> Value(q[i]) >= 0)
            && EndOf(q, 0) == (k - 1) % 3 && Gathered(q) == Number(a, b, c)
  {
    hide Symbol, Lookup, Quartet;
    QuartetOf(a / 4, a % 4 * 16 + b / 16, b % 16 * 4 + c / 64, c % 64, k);
  }

  lemma {:induction false} EncodingLength(s: seq<byte>)
    ensures |Encoding(s)| == 4 * ((|s| + 2) / 3)
  {
    hide Quartet, Number;
    if |s| > 2 {
      EncodingLength(s[3..]);
      assert (|s| + 2) / 3 == (|s[3..]| + 2) / 3 + 1;
    }
  }

  lemma {:induction false} DecodingLength(t: seq<byte>, end: int)
    requires 0 <= end <= 2 && Decoding(t, end).Some?
    ensures |t| % 4 == 0 && 4 * |Decoding(t, end).value| <= 3 * |t|
  {
    hide Value, Gathered, Bytes;
    if t != [] {
      DecodingLength(t[4..], EndOf(t[..4], end));
    }
  }

  lemma NothingDecodes(end: int)
    requires 0 <= end <= 2
    ensures Decoding([], end) == Some([])
  {
  }

  /** Decoding undoes encoding. */
  lemma {:induction false} EncodingDecodes(s: seq<byte>)
    ensures Decoding(Encoding(s), 0) == Some(s)
  {
    hide Symbol, Lookup, Gathered, Decoding, Quartet, EndOf;
    NothingDecodes(|s| % 3);
    if |s| == 1 {
      GroupDecodes(s[0], 0, 0, 2);
      NumberBytes(s[0], 0, 0);
      DecodingStep(Encoding(s), [], 0);
      assert Encoding(s) + [] == Encoding(s) && Bytes(Number(s[0], 0, 0), 1) + [] == s;
    } else if |s| == 2 {
      GroupDecodes(s[0], s[1], 0, 3);
      NumberBytes(s[0], s[1], 0);
      DecodingStep(Encoding(s), [], 0);
      assert Encoding(s) + [] == Encoding(s) && Bytes(Number(s[0], s[1], 0), 2) + [] == s;
    } else if |s| > 2 {
      var n := Number(s[0], s[1], s[2]);
      GroupDecodes(s[0], s[1], s[2], 4);
      NumberBytes(s[0], s[1], s[2]);
      EncodingDecodes(s[3..]);
      DecodingStep(Quartet(n, 4), Encoding(s[3..]), 0);
      assert s == [s[0], s[1], s[2]] + s[3..];
    }
  }

  /** The lengths the callers allocate are enough, for encoding and for any text that decodes. */
  lemma LengthsSuffice(s: seq<byte>, t: seq<byte>)
    ensures (|s| + 2) * 4 <= INT_MAX ==> |Encoding(s)| <= EncLen(|s|)
    ensures |t| * 3 <= INT_MAX && Decoding(t, 0).Some? ==> |Decoding(t, 0).value| <= DecLen(|t|)
    ensures |Encoding(s)| * 3 <= INT_MAX ==> |s| <= DecLen(|Encoding(s)|)
  {
    EncodingDecodes(s);
    EncodingLength(s);
    DecodingLength(Encoding(s), 0);
    if Decoding(t, 0).Some? {
      DecodingLength(t, 0);
    }
  }

  lemma OneByteEncodes(v0: int, v1: int, n: int)
    requires 0 <= v0 < 64 && 0 <= v1 < 64 && n == v0 * 4 + v1 / 16
    ensures Encoding([n]) == [Symbol(v0), Symbol(v1 / 16 * 16), PAD, PAD]
  {
    hide Symbol, Quartet;
    QuartetOf(v0, v1 / 16 * 16, 0, 0, 2);
    assert Number(n, 0, 0) == v0 * 0x4_0000 + v1 / 16 * 16 * 0x1000;
  }

  lemma TwoBytesEncode(v0: int, v1: int, v2: int, n: int, m: int)
    requires 0 <= v0 < 64 && 0 <= v1 < 64 && 0 <= v2 < 64 && n == v0 * 4 + v1 / 16 && m == v1 % 16 * 16 + v2 / 4
    ensures Encoding([n, m]) == [Symbol(v0), Symbol(v1), Symbol(v2 / 4 * 4), PAD]
  {
    hide Symbol, Quartet;
    QuartetOf(v0, v1, v2 / 4 * 4, 0, 3);
    assert Number(n, m, 0) == v0 * 0x4_0000 + v1 * 0x1000 + v2 / 4 * 4 * 64;
  }

  lemma ThreeBytesEncode(v0: int, v1: int, v2: int, v3: int, n: int, m: int, l: int)
    requires 0 <= v0 < 64 && 0 <= v1 < 64 && 0 <= v2 < 64 && 0 <= v3 < 64
    requires n == v0 * 4 + v1 / 16 && m == v1 % 16 * 16 + v2 / 4 && l == v2 % 4 * 64 + v3
    ensures Encoding([n, m, l]) == [Symbol(v0), Symbol(v1), Symbol(v2), Symbol(v3)]
  {
    hide Symbol, Quartet;
    QuartetOf(v0, v1, v2, v3, 4);
    assert Number(n, m, l) == v0 * 0x4_0000 + v1 * 0x1000 + v2 * 64 + v3;
    assert [n, m, l][3..] == [];
    assert Encoding([n, m, l]) == Quartet(Number(n, m, l), 4) + Encoding([]);
  }

  /** What a group that decodes on its own re-encodes to. */
  lemma GroupEncoded(q: seq<byte>)
    requires |q| == 4 && (forall i :: 0 <= i < 4 ==> Value(q[i]) >= 0) && EndOf(q, 0) >= 0
    ensures q[0] != PAD && q[1] != PAD
    ensures Encoding(Bytes(Gathered(q), EndOf(q, 0))) ==
            if q[2] == PAD then [Symbol(Value(q[0])), Symbol(Value(q[1]) / 16 * 16), PAD, PAD]
            else if q[3] == PAD then [Symbol(Value(q[0])), Symbol(Value(q[1])), Symbol(Value(q[2]) / 4 * 4), PAD]
            else [Symbol(Value(q[0])), Symbol(Value(q[1])), Symbol(Value(q[2])), Symbol(Value(q[3]))]
  {
    hide Symbol, Lookup, Encoding;
    var v0, v1, v2, v3 := Value(q[0]), Value(q[1]), Value(q[2]), Value(q[3]);
    var n := Sextets(v0, v1, v2, v3);
    var n0, n1, n2 := n / 0x1_0000, n / 0x100 % 0x100, n % 0x100;
    if q[2] == PAD {
      OneByteEncodes(v0, v1, n0);
    } else if q[3] == PAD {
      TwoBytesEncode(v0, v1, v2, n0, n1);
    } else {
      ThreeBytesEncode(v0, v1, v2, v3, n0, n1, n2);
    }
  }

  lemma SymbolIs(v: int, c: byte)
    requires 0 <= v < 64 && c != PAD && Value(c) >= 0
    ensures Symbol(v) == c <==> v == Value(c)
  {
    SymbolsAreUnique(c);
  }

  /** A group that carries nothing but what it decodes to. */
  predicate Tight(q: seq<byte>)
    requires |q| == 4
  {
    && (q[2] == PAD ==> q[3] == PAD && Value(q[1]) % 16 == 0)
    && (q[2] != PAD && q[3] == PAD ==> Value(q[2]) % 4 == 0)
  }

  lemma GroupCanonical(q: seq<byte>)
    requires |q| == 4 && (forall i :: 0 <= i < 4 ==> Value(q[i]) >= 0) && EndOf(q, 0) >= 0
    ensures Encoding(Bytes(Gathered(q), EndOf(q, 0))) == q <==> Tight(q)
  {
    hide Symbol, Lookup, Encoding, Gathered, Bytes;
    GroupEncoded(q);
    var v0, v1, v2, v3 := Value(q[0]), Value(q[1]), Value(q[2]), Value(q[3]);
    assert q == [q[0], q[1], q[2], q[3]];
    SymbolIs(v0, q[0]);
    SymbolIs(v1, q[1]);
    SymbolIs(v1 / 16 * 16, q[1]);
    if q[2] != PAD {
      SymbolIs(v2, q[2]);
      SymbolIs(v2 / 4 * 4, q[2]);
      if q[3] != PAD {
        SymbolIs(v3, q[3]);
      }
    }
  }

  /** Padding in the last group only, and that group tight. */
  predicate Canonical(t: seq<byte>) {
    if |t| < 4 then t == []
    else if |t| == 4 then Tight(t)
    else EndOf(t[..4], 0) == 0 && Canonical(t[4..])
  }

  lemma EncodingSplits(a: seq<byte>, s: seq<byte>)
    requires |a| == 3
    ensures Encoding(a + s) == Encoding(a) + Encoding(s)
  {
    hide Quartet;
    assert (a + s)[3..] == s && a[3..] == [];
  }

  /** Every group after the padding gives as many bytes as the padded one. */
  lemma {:induction false} LooseLength(t: seq<byte>, end: int)
    requires 0 < end <= 2 && Decoding(t, end).Some?
    ensures 4 * |Decoding(t, end).value| == if end == 1 then |t| else |t| + |t|
  {
    hide Value, Gathered, Bytes;
    if t != [] {
      LooseLength(t[4..], end);
    }
  }

  lemma NoEarlyPad(s: seq<byte>)
    requires |s| > 2
    ensures Encoding(s)[2] != PAD && Encoding(s)[3] != PAD
  {
    hide Symbol;
  }

  /**
   The decoder is more lenient than the encoding: it takes symbols and more groups after the padding,
   and any dropped bits. Re-encoding what it accepted gives the text back exactly for canonical texts.
   */
  lemma {:induction false} CanonicalExactly(t: seq<byte>)
    requires Decoding(t, 0).Some?
    ensures Encoding(Decoding(t, 0).value) == t <==> Canonical(t)
  {
    hide Value, Encoding, Quartet, Gathered, Symbol;
    DecodingLength(t, 0);
    EncodingLength(Decoding(t, 0).value);
    if t != [] {
      var q, rest := t[..4], t[4..];
      var e, bs := EndOf(q, 0), Bytes(Gathered(q), EndOf(q, 0));
      assert t == q + rest;
      assert forall i :: 0 <= i < 4 ==> q[i] == t[i];
      GroupCanonical(q);
      if rest == [] {
        assert Decoding(t, 0).value == bs + [] == bs && t == q;
      } else if e > 0 {
        LooseLength(rest, e);
        if |Decoding(t, 0).value| > 2 {
          NoEarlyPad(Decoding(t, 0).value);
        }
      } else {
        CanonicalExactly(rest);
        EncodingSplits(bs, Decoding(rest, 0).value);
      }
    }
  }

  /** Texts that decode and are no encodings: one with dropped bits, and one with a group behind the padding. */
  lemma LenientTexts()
    ensures Decoding([81, 82, PAD, PAD], 0) == Some([65]) && Encoding([65]) == [81, 81, PAD, PAD]
    ensures Decoding([81, 81, PAD, PAD, 81, 81, PAD, PAD], 0) == Some([65, 65]) &&
        Encoding([65, 65]) == [81, 85, 69, PAD]
  {
    var q, l: seq<byte> := [81, 82, PAD, PAD], [81, 81, PAD, PAD];
    DecodingStep(q, [], 0);
    DecodingStep(l, [], 1);
    DecodingStep(l, l, 0);
    assert q + [] == q && l + [] == l && l + l == [81, 81, PAD, PAD, 81, 81, PAD, PAD];
    assert [65] + [] == [65] && [65] + [65] == [65, 65];
  }

  // ------------------------------------------------------------ the loops

  /** The error exits zero the whole result buffer. */
  method Clear(dst: array<byte>)
    modifies dst
    ensures forall i :: 0 <= i < dst.Length ==> dst[i] == 0
  {
    for i := 0 to dst.Length
      invariant forall j :: 0 <= j < i ==> dst[j] == 0
    {
      dst[i] := 0;
    }
  }

  /** A byte at the place `pos` of a group's number. */
  function Shifted(b: byte, pos: int): int {
    if pos == 2 then b * 0x1_0000 else if pos == 1 then b * 0x100 else b
  }

  method PutFour(dst: array<byte>, p: int, buf: int, k: int)
    requires 0 <= p && p + 4 <= dst.Length && 0 <= buf < 0x100_0000
    modifies dst
    ensures dst[..p + 4] == old(dst[..p]) + Quartet(buf, k)
    ensures forall i :: p + 4 <= i < dst.Length ==> dst[i] == old(dst[i])
  {
    hide Symbol;
    dst[p] := Symbol(buf / 0x4_0000 % 64);
    dst[p + 1] := Symbol(buf / 0x1000 % 64);
    dst[p + 2] := if k > 2 then Symbol(buf / 64 % 64) else PAD;
    dst[p + 3] := if k > 3 then Symbol(buf % 64) else PAD;
  }

  lemma {:induction false} EncodingAppends(a: seq<byte>, s: seq<byte>)
    requires |a| % 3 == 0
    ensures Encoding(a + s) == Encoding(a) + Encoding(s)
  {
    hide Encoding;
    if a == [] {
      NothingEncodes();
      assert a + s == s;
    } else {
      assert (a + s) == a[..3] + (a[3..] + s) && a == a[..3] + a[3..];
      EncodingSplits(a[..3], a[3..] + s);
      EncodingSplits(a[..3], a[3..]);
      EncodingAppends(a[3..], s);
    }
  }

  lemma NothingEncodes()
    ensures Encoding([]) == []
  {
  }

  lemma EncodingGrows(src: seq<byte>, g: nat)
    requires 3 * g + 3 <= |src|
    ensures Encoding(src[..3 * g + 3]) ==
            Encoding(src[..3 * g]) + Quartet(Number(src[3 * g], src[3 * g + 1], src[3 * g + 2]), 4)
  {
    hide Quartet, Number;
    var three := src[3 * g..3 * g + 3];
    assert src[..3 * g + 3] == src[..3 * g] + three && three[3..] == [];
    EncodingAppends(src[..3 * g], three);
    assert Encoding(three) == Quartet(Number(three[0], three[1], three[2]), 4) + Encoding([]);
  }

  lemma EncodingEnds(src: seq<byte>, g: nat)
    requires 3 * g < |src| < 3 * g + 3
    ensures Encoding(src) == Encoding(src[..3 * g]) +
              Quartet(Number(src[3 * g], if |src| == 3 * g + 2 then src[3 * g + 1] else 0, 0), |src| - 3 * g + 1)
  {
    hide Quartet, Number;
    var rest := src[3 * g..];
    assert src == src[..3 * g] + rest;
    EncodingAppends(src[..3 * g], rest);
    assert rest[0] == src[3 * g];
  }

  lemma StillLonger(src: seq<byte>, g: nat)
    requires 3 * g < |src|
    ensures |Encoding(src)| >= 4 * g + 4
  {
    hide Encoding;
    EncodingLength(src);
    assert (|src| + 2) / 3 >= g + 1;
  }

  lemma ShiftedNumber(a: byte, b: byte, c: byte)
    ensures Shifted(a, 2) + Shifted(b, 1) + Shifted(c, 0) == Number(a, b, c)
    ensures Shifted(0, 1) == Shifted(0, 0) == 0
  {
  }

  /** `pg_b64_encode`. */
  method Encode(src: seq<byte>, dst: array<byte>) returns (r: int)
    modifies dst
    ensures r == if |Encoding(src)| <= dst.Length then |Encoding(src)| else -1
    ensures r >= 0 ==> dst[..r] == Encoding(src) && dst[r..] == old(dst[r..])
    ensures r == -1 ==> forall i :: 0 <= i < dst.Length ==> dst[i] == 0
  {
    hide Encoding, Quartet, Symbol, Shifted;
    NothingEncodes();
    var s, p, pos, buf := 0, 0, 2, 0;
    ghost var g := 0;
    while s < |src|
      invariant 0 <= s <= |src| && 0 <= pos <= 2 && s == 3 * g + 2 - pos && p == 4 * g <= dst.Length
      invariant buf == (if pos < 2 then Shifted(src[3 * g], 2) else 0) + (if pos < 1 then Shifted(src[3 * g + 1],
          1) else 0)
      invariant dst[..p] == Encoding(src[..3 * g]) && forall i :: p <= i < dst.Length ==> dst[i] == old(dst[i])
    {
      buf := buf + Shifted(src[s], pos);
      pos := pos - 1;
      s := s + 1;
      if pos < 0 {
        if p + 4 > dst.Length {
          StillLonger(src, g);
          Clear(dst);
          return -1;
        }
        EncodingGrows(src, g);
        ShiftedNumber(src[3 * g], src[3 * g + 1], src[3 * g + 2]);
        PutFour(dst, p, buf, 4);
        p := p + 4;
        pos := 2;
        buf := 0;
        g := g + 1;
      }
    }
    if pos != 2 {
      if p + 4 > dst.Length {
        StillLonger(src, g);
        Clear(dst);
        return -1;
      }
      EncodingEnds(src, g);
      ShiftedNumber(src[3 * g], if pos == 0 then src[3 * g + 1] else 0, 0);
      PutFour(dst, p, buf, 3 - pos);
      p := p + 4;
    } else {
      assert src[..3 * g] == src;
    }
    return p;
  }

  function Folded(q: seq<byte>): int {
    if q == [] then 0 else Folded(q[..|q| - 1]) * 64 + Value(q[|q| - 1])
  }

  lemma FoldedGathers(q: seq<byte>)
    requires |q| == 4 && forall i :: 0 <= i < 4 ==> Value(q[i]) >= 0
    ensures Folded(q) == Gathered(q)
  {
    hide Value;
    var q3, q2, q1 := q[..3], q[..2], q[..1];
    assert q3[..2] == q2 && q2[..1] == q1 && q1[..0] == [];
    assert Folded(q1) == Value(q[0]);
    assert Folded(q2) == Folded(q1) * 64 + Value(q[1]);
    assert Folded(q3) == Folded(q2) * 64 + Value(q[2]);
  }

  function Prepend(out: seq<byte>, r: Option<seq<byte>>): Option<seq<byte>> {
    if r.None? then None else Some(out + r.value)
  }

  lemma PrependMore(out: seq<byte>, bs: seq<byte>, r: Option<seq<byte>>)
    ensures Prepend(out, Prepend(bs, r)) == Prepend(out + bs, r)
    ensures Prepend([], r) == r
  {
    if r.Some? {
      assert out + (bs + r.value) == out + bs + r.value;
      assert [] + r.value == r.value;
    }
  }

  /** A bad character or a misplaced pad spoils its group. */
  lemma GroupFails(t: seq<byte>, end: int, j: nat)
    requires 0 <= end <= 2 && j < |t| && j < 4
    requires Value(t[j]) < 0 || (end == 0 && j < 2 && t[j] == PAD)
    ensures Decoding(t, end).None?
  {
    hide Value;
  }

  /** The bytes of a finished group, checked one by one against the room that is left. */
  method PutGroup(dst: array<byte>, p: int, buf: int, end: int) returns (q: int)
    requires 0 <= p <= dst.Length && 0 <= buf < 0x100_0000 && 0 <= end <= 2
    modifies dst
    ensures q == if p + |Bytes(buf, end)| <= dst.Length then p + |Bytes(buf, end)| else -1
    ensures q >= 0 ==> dst[..q] == old(dst[..p]) + Bytes(buf, end)
    ensures forall i :: p + |Bytes(buf, end)| <= i < dst.Length ==> dst[i] == old(dst[i])
  {
    q := p;
    if q + 1 > dst.Length {
      return -1;
    }
    dst[q] := buf / 0x1_0000 % 0x100;
    q := q + 1;
    if end == 0 || end > 1 {
      if q + 1 > dst.Length {
        return -1;
      }
      dst[q] := buf / 0x100 % 0x100;
      q := q + 1;
    }
    if end == 0 || end > 2 {
      if q + 1 > dst.Length {
        return -1;
      }
      dst[q] := buf % 0x100;
      q := q + 1;
    }
  }

  lemma FoldedNothing()
    ensures Folded([]) == 0
  {
  }

  lemma PrependEnds(out: seq<byte>)
    ensures Prepend(out, Some([])) == Some(out) && Prepend(out, None) == None
  {
    assert out + [] == out;
  }

  lemma FoldedMore(src: seq<byte>, base: nat, s: nat)
    requires base < s <= |src|
    ensures Folded(src[base..s]) == Folded(src[base..s - 1]) * 64 + Value(src[s - 1])
  {
    hide Value;
    assert src[base..s][..s - 1 - base] == src[base..s - 1];
  }

  /** A finished group moves its bytes from what is to be decoded to what has been. */
  lemma GroupDone(src: seq<byte>, base: nat, end0: int, out: seq<byte>, end: int)
    requires base + 4 <= |src| && 0 <= end0 <= 2
    requires Decoding(src, 0) == Prepend(out, Decoding(src[base..], end0))
    requires forall j :: base <= j < base + 4 ==> Value(src[j]) >= 0
    requires end0 == 0 ==> src[base] != PAD && src[base + 1] != PAD
    requires end == if end0 != 0 then end0 else if src[base + 2] == PAD then 1 else if src[base +
        3] == PAD then 2 else 0
    ensures 0 <= Folded(src[base..base + 4]) < 0x100_0000
    ensures Decoding(src, 0) ==
            Prepend(out + Bytes(Folded(src[base..base + 4]), end), Decoding(src[base + 4..], end))
  {
    hide Decoding, Gathered, Bytes, Value, Folded;
    var q := src[base..base + 4];
    assert forall j :: 0 <= j < 4 ==> q[j] == src[base + j];
    assert src[base..] == q + src[base + 4..];
    FoldedGathers(q);
    DecodingStep(q, src[base + 4..], end0);
    PrependMore(out, Bytes(Folded(q), end), Decoding(src[base + 4..], end));
  }

  /** What one character adds to its group, or -1 for an error; the first pad settles `end`. */
  method Classify(c: byte, pos: int, end: int) returns (b: int, e: int)
    requires 0 <= pos < 4
    ensures b == if c == PAD && end == 0 && pos < 2 then -1 else Value(c)
    ensures e == if c == PAD && end == 0 && pos >= 2 then pos - 1 else end
  {
    e := end;
    if c == 32 || c == 9 || c == 10 || c == 13 {
      return -1, e;
    }
    if c == PAD {
      if end == 0 {
        if pos == 2 {
          e := 1;
        } else if pos == 3 {
          e := 2;
        } else {
          return -1, e;
        }
      }
      b := 0;
    } else {
      b := -1;
      if 0 < c < 127 {
        b := Lookup(c);
      }
    }
  }

  /** `pg_b64_decode`. */
  method Decode(src: seq<byte>, dst: array<byte>) returns (r: int)
    modifies dst
    ensures var d := Decoding(src, 0);
            r == if d.Some? && |d.value| <= dst.Length then |d.value| else -1
    ensures r >= 0 ==> dst[..r] == Decoding(src, 0).value && dst[r..] == old(dst[r..])
    ensures r == -1 ==> forall i :: 0 <= i < dst.Length ==> dst[i] == 0
  {
    hide Decoding, Gathered, Bytes, Value, Folded;
    var s, p, b, buf, pos, end := 0, 0, 0, 0, 0, 0;
    ghost var base, end0, out := 0, 0, [];
    assert src[0..] == src;
    FoldedNothing();
    PrependMore([], [], Decoding(src, 0));
    while s < |src|
      invariant 0 <= base <= s <= |src| && pos == s - base < 4
      invariant p == |out| <= dst.Length && dst[..p] == out && forall i :: p <= i < dst.Length ==> dst[i] == old(dst[i])
      invariant 0 <= end0 <= 2 && Decoding(src, 0) == Prepend(out, Decoding(src[base..], end0))
      invariant forall j :: base <= j < s ==> Value(src[j]) >= 0
      invariant end0 == 0 ==> forall j :: base <= j < s && j < base + 2 ==> src[j] != PAD
      invariant end == if end0 != 0 then end0 else if pos == 3 && src[base + 2] == PAD then 1 else 0
      invariant buf == Folded(src[base..s])
    {
      var c := src[s];
      ghost var t := src[base..];
      assert t[pos] == c;
      s := s + 1;
      b, end := Classify(c, pos, end);
      if b < 0 {
        GroupFails(t, end0, pos);
        Clear(dst);
        return -1;
      }
      FoldedMore(src, base, s);
      buf := buf * 64 + b;
      pos := pos + 1;
      if pos == 4 {
        GroupDone(src, base, end0, out, end);
        p := PutGroup(dst, p, buf, end);
        if p < 0 {
          Clear(dst);
          return -1;
        }
        base, end0, out := s, end, out + Bytes(buf, end);
        assert src[base..s] == [];
        buf := 0;
        pos := 0;
      }
    }
    if pos != 0 {
      TooShort(src[base..], end0);
      Clear(dst);
      return -1;
    }
    NothingDecodes(end0);
    PrependEnds(out);
    assert src[base..] == [];
    return p;
  }

  lemma TooShort(t: seq<byte>, end: int)
    requires 0 < |t| < 4 && 0 <= end <= 2
    ensures Decoding(t, end).None?
  {
  }
}
