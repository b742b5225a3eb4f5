/**
 UTF-8 as section 3 of RFC 3629 defines it, read backwards: a decoder for one
 character. Utf8Bytes, the branches of the tokener, is its inverse on code points.
 */
module Utf8 {
  import opened TokenerMachine

  predicate Tail(c: char) {
    0x80 <= c as int < 0xC0
  }

  /** A code point with the text behind its encoding; overlong forms are refused. */
  datatype Decoded = Invalid | Point(cp: nat, rest: string)

  function DecodeFirst(s: string): Decoded {
    if s == "" then Invalid
    else if s[0] as int < 0x80 then Point(s[0] as int, s[1..])
    else if 0xC0 <= s[0] as int < 0xE0 && |s| >= 2 && Tail(s[1]) then
      AtLeast(0x80, (s[0] as int - 0xC0) * 0x40 + (s[1] as int - 0x80), s[2..])
    else if 0xE0 <= s[0] as int < 0xF0 && |s| >= 3 && Tail(s[1]) && Tail(s[2]) then
      AtLeast(0x800, (s[0] as int - 0xE0) * 0x1000 + (s[1] as int - 0x80) * 0x40 + (s[2] as int - 0x80), s[3..])
    else if 0xF0 <= s[0] as int < 0xF8 && |s| >= 4 && Tail(s[1]) && Tail(s[2]) && Tail(s[3]) then
      AtLeast(0x10000, (s[0] as int - 0xF0) * 0x40000 + (s[1] as int - 0x80) * 0x1000
              + (s[2] as int - 0x80) * 0x40 + (s[3] as int - 0x80), s[4..])
    else Invalid
  }

  function AtLeast(least: nat, cp: nat, rest: string): Decoded {
    if cp < least then Invalid else Point(cp, rest)
  }

  lemma OneByte(u: nat, rest: string)
    requires u < 0x80
    ensures |Utf8Bytes(u)| == 1 && DecodeFirst(Utf8Bytes(u) + rest) == Point(u, rest)
  {
    assert (Utf8Bytes(u) + rest)[1..] == rest;
  }

  lemma TwoBytes(u: nat, rest: string)
    requires 0x80 <= u < 0x800
    ensures |Utf8Bytes(u)| == 2 && DecodeFirst(Utf8Bytes(u) + rest) == Point(u, rest)
  {
    var hi, lo := u / 0x40, u % 0x40;
    assert u == hi * 0x40 + lo;
    assert Utf8Bytes(u) == [(0xC0 + hi) as char, (0x80 + lo) as char];
    assert (Utf8Bytes(u) + rest)[2..] == rest;
  }

  lemma ThreeBytes(u: nat, rest: string)
    requires 0x800 <= u < 0x10000
    ensures |Utf8Bytes(u)| == 3 && DecodeFirst(Utf8Bytes(u) + rest) == Point(u, rest)
  {
    var hi, mid, lo := u / 0x1000, u / 0x40 % 0x40, u % 0x40;
    assert u == hi * 0x1000 + mid * 0x40 + lo;
    assert Utf8Bytes(u) == [(0xE0 + hi) as char, (0x80 + mid) as char, (0x80 + lo) as char];
    assert (Utf8Bytes(u) + rest)[3..] == rest;
  }

  lemma FourParts(u: nat) returns (hi: nat, up: nat, mid: nat, lo: nat)
    requires 0x10000 <= u < 0x110000
    ensures hi == u / 0x40000 % 8 && up == u / 0x1000 % 0x40 && mid == u / 0x40 % 0x40 && lo == u % 0x40
    ensures hi <= 4 && up < 0x40 && mid < 0x40 && lo < 0x40
    ensures u == hi * 0x40000 + up * 0x1000 + mid * 0x40 + lo
  {
    hi, up, mid, lo := u / 0x40000, u / 0x1000 % 0x40, u / 0x40 % 0x40, u % 0x40;
    assert u == u / 0x40 * 0x40 + lo;
    assert u / 0x40 == u / 0x1000 * 0x40 + mid;
    assert u / 0x1000 == hi * 0x40 + up;
  }

  lemma FourBytes(u: nat, rest: string)
    requires 0x10000 <= u < 0x110000
    ensures |Utf8Bytes(u)| == 4 && DecodeFirst(Utf8Bytes(u) + rest) == Point(u, rest)
  {
    var hi, up, mid, lo := FourParts(u);
    assert Utf8Bytes(u) == [(0xF0 + hi) as char, (0x80 + up) as char, (0x80 + mid) as char, (0x80 + lo) as char];
    assert (Utf8Bytes(u) + rest)[4..] == rest;
  }

  /** The tokener's byte formulas encode every code point so that decoding gives it back. */
  lemma EncodeDecodes(u: nat, rest: string)
    requires u < 0x110000
    ensures DecodeFirst(Utf8Bytes(u) + rest) == Point(u, rest)
    ensures |Utf8Bytes(u)| == if u < 0x80 then 1 else if u < 0x800 then 2 else if u < 0x10000 then 3 else 4
  {
    hide Utf8Bytes, DecodeFirst;
    if u < 0x80 {
      OneByte(u, rest);
    } else if u < 0x800 {
      TwoBytes(u, rest);
    } else if u < 0x10000 {
      ThreeBytes(u, rest);
    } else {
      FourBytes(u, rest);
    }
  }

  /** Two encodings that begin the same text are encodings of the same code point. */
  lemma EncodeInjective(u: nat, v: nat, x: string, y: string)
    requires u < 0x110000 && v < 0x110000
    requires Utf8Bytes(u) + x == Utf8Bytes(v) + y
    ensures u == v && x == y
  {
    EncodeDecodes(u, x);
    EncodeDecodes(v, y);
  }

  /** EF BF BD is the encoding of U+FFFD, the replacement character. */
  lemma ReplacementIsFFFD()
    ensures REPLACEMENT == Utf8Bytes(0xFFFD)
  {
  }
}
