/**
 Decimal text of integers: what `snprintf("%PRId64")` and `snprintf("%PRIu64")`
 write, and what `strtoll` and `strtoull` in base 10 read back (with their
 clamping and ERANGE), on text that does not begin with white space.
 */
module Decimal {
  import opened JsonValue

  predicate IsDigit(c: char) {
    '0' <= c <= '9'
  }

  predicate AllDigits(s: string) {
    forall i :: 0 <= i < |s| ==> IsDigit(s[i])
  }

  function DigitChar(d: nat): char
    requires d < 10
  {
    ('0' as int + d) as char
  }

  function DigitValue(c: char): (d: nat)
    requires IsDigit(c)
  {
    c as int - '0' as int
  }

  function Digits(n: nat): (s: string) {
    if n < 10 then [DigitChar(n)] else Digits(n / 10) + [DigitChar(n % 10)]
  }

  function SignedDigits(i: int): string {
    if i < 0 then "-" + Digits(-i) else Digits(i)
  }

  function Value(s: string): nat
    requires AllDigits(s)
  {
    if s == "" then 0 else 10 * Value(s[..|s| - 1]) + DigitValue(s[|s| - 1])
  }

  /** The longest prefix made of digits. */
  function DigitPrefix(s: string): (p: string)
    ensures AllDigits(p) && p <= s
  {
    if s != "" && IsDigit(s[0]) then [s[0]] + DigitPrefix(s[1..]) else ""
  }

  /** `range` is true when the conversion clamped and set errno to ERANGE. */
  datatype Number = NoDigits | Number(value: int, range: bool)

  function Clamp(v: int, lo: int, hi: int): Number
    requires lo <= hi
  {
    if v < lo then Number(lo, true) else if v > hi then Number(hi, true) else Number(v, false)
  }

  /** `json_parse_int64` over `strtoll`. */
  function ParseInt64(s: string): (r: Number)
    ensures r.Number? ==> INT64_MIN <= r.value <= INT64_MAX
  {
    var neg := s != "" && s[0] == '-';
    var body := if s != "" && (s[0] == '-' || s[0] == '+') then s[1..] else s;
    var d := DigitPrefix(body);
    var v: int := Value(d);
    if d == "" then NoDigits else Clamp(if neg then -v else v, INT64_MIN, INT64_MAX)
  }

  /** `json_parse_uint64` over `strtoull`; a leading minus is refused before the conversion. */
  function ParseUInt64(s: string): (r: Number)
    ensures r.Number? ==> 0 <= r.value <= UINT64_MAX
  {
    if s != "" && s[0] == '-' then NoDigits
    else
      var body := if s != "" && s[0] == '+' then s[1..] else s;
      var d := DigitPrefix(body);
      if d == "" then NoDigits else Clamp(Value(d), 0, UINT64_MAX)
  }

  lemma {:induction false} DigitsShape(n: nat)
    ensures Digits(n) != "" && AllDigits(Digits(n))
    ensures n > 0 ==> Digits(n)[0] != '0'
  {
    if n >= 10 {
      DigitsShape(n / 10);
    }
  }

  /** Reading the digits of a number gives the number back. */
  lemma {:induction false} ValueOfDigits(n: nat)
    ensures AllDigits(Digits(n)) && Value(Digits(n)) == n
  {
    DigitsShape(n);
    var s := Digits(n);
    if n < 10 {
      assert s[..0] == "";
    } else {
      ValueOfDigits(n / 10);
      assert s[..|s| - 1] == Digits(n / 10);
    }
  }

  lemma {:induction false} DigitPrefixOfDigits(s: string)
    requires AllDigits(s)
    ensures DigitPrefix(s) == s
  {
    if s != "" {
      DigitPrefixOfDigits(s[1..]);
    }
  }

  lemma DigitsParse(s: string, n: int)
    requires AllDigits(s) && s != "" && Value(s) == n
    ensures n <= UINT64_MAX ==> ParseUInt64(s) == Number(n, false)
    ensures -n >= INT64_MIN ==> ParseInt64("-" + s) == Number(-n, false)
  {
    DigitPrefixOfDigits(s);
    assert IsDigit(s[0]);
    assert ("-" + s)[1..] == s;
  }

  /** What `snprintf` prints for an int64 or uint64, the parsers read back exactly and without ERANGE. */
  lemma PrintedIntegerReadsBack(i: int)
    requires INT64_MIN <= i <= UINT64_MAX
    ensures i < 0 ==> ParseInt64(SignedDigits(i)) == Number(i, false)
    ensures i >= 0 ==> ParseUInt64(SignedDigits(i)) == Number(i, false)
  {
    hide ParseInt64, ParseUInt64, Digits, Value, AllDigits;
    var n: nat := if i < 0 then -i else i;
    DigitsShape(n);
    ValueOfDigits(n);
    DigitsParse(Digits(n), n);
  }

  const DIGITS := "0123456789"

  lemma DigitsInOrder(d: nat)
    requires d < 10
    ensures DigitChar(d) == DIGITS[d] && IsDigit(DIGITS[d]) && DigitValue(DIGITS[d]) == d
  {
  }

  lemma OnePlace(d: nat)
    requires d < 10
    ensures AllDigits([DIGITS[d]]) && Value([DIGITS[d]]) == d && Digits(d) == [DIGITS[d]]
  {
    DigitsInOrder(d);
    assert [DIGITS[d]][..0] == "";
  }

  /** The ten digits in their order, and ten to the place. */
  lemma TwoPlaces(t: nat, u: nat)
    requires t < 10 && u < 10
    ensures AllDigits([DIGITS[t], DIGITS[u]]) && Value([DIGITS[t], DIGITS[u]]) == 10 * t + u
    ensures t > 0 ==> Digits(10 * t + u) == [DIGITS[t], DIGITS[u]]
  {
    hide DigitChar, DigitValue, IsDigit;
    OnePlace(t);
    DigitsInOrder(t);
    DigitsInOrder(u);
    assert [DIGITS[t], DIGITS[u]][..1] == [DIGITS[t]];
    var n := 10 * t + u;
    assert n / 10 == t && n % 10 == u;
    assert t > 0 ==> Digits(n) == [DIGITS[t]] + [DIGITS[u]];
  }
}
