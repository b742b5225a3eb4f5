/**
 fe-auth-scram.c: the client's side of a SCRAM-SHA-256 exchange (RFC 5802, sections 3 and 5). The
 hash functions are uninterpreted; texts are byte strings.
 */
module Scram {
  import opened Basics
  import opened Base64
  import Decimal
  import JsonValue

  const KEY_LEN := 32

  type Key = k: seq<byte> | |k| == 32 witness seq(32, _ => 0)

  const COMMA: byte := 44
  const EQUALS: byte := 61

  /** The bytes of an ASCII text. */
  function Ascii(s: string): (t: seq<byte>)
    ensures |t| == |s|
  {
    seq(|s|, i requires 0 <= i < |s| => s[i] as int % 256)
  }

  /** What the program takes from the cryptographic library. */
  datatype Crypto = Crypto(hmac: (seq<byte>, seq<byte>) -> Key,
                           hash: seq<byte> -> Key,
                           hi: (seq<byte>, seq<byte>, int) -> Key)

  // ------------------------------------------------------------ attributes

  /** The position of the first comma, or the length. */
  function FirstComma(s: seq<byte>): (n: nat)
    ensures n <= |s| && (n < |s| ==> s[n] == COMMA) && forall i :: 0 <= i < n ==> s[i] != COMMA
  {
    if s == [] || s[0] == COMMA then 0 else 1 + FirstComma(s[1..])
  }

  datatype Attr = Attr(value: seq<byte>, rest: seq<byte>)

  /** `read_attr_value`: "a=value", and what follows after a comma. */
  function AttrValue(s: seq<byte>, a: byte): Option<Attr> {
    if |s| < 2 || s[0] != a || s[1] != EQUALS then None
    else
      var n := FirstComma(s[2..]);
      Some(Attr(s[2..][..n], if n < |s| - 2 then s[2..][n + 1..] else []))
  }

  lemma {:induction false} FirstCommaIs(s: seq<byte>, n: nat)
    requires n <= |s| && (n < |s| ==> s[n] == COMMA) && forall i :: 0 <= i < n ==> s[i] != COMMA
    ensures FirstComma(s) == n
  {
    if n > 0 {
      FirstCommaIs(s[1..], n - 1);
    }
  }

  /** An attribute without a comma reads back, last or followed by more. */
  lemma AttrReadsBack(a: byte, value: seq<byte>, rest: seq<byte>)
    requires COMMA !in value
    ensures AttrValue([a, EQUALS] + value, a) == Some(Attr(value, []))
    ensures AttrValue([a, EQUALS] + value + [COMMA] + rest, a) == Some(Attr(value, rest))
  {
    var s := [a, EQUALS] + value;
    assert s[2..] == value && value[..|value|] == value;
    FirstCommaIs(value, |value|);
    var t := s + [COMMA] + rest;
    assert t[2..] == value + [COMMA] + rest;
    FirstCommaIs(t[2..], |value|);
    assert t[2..][..|value|] == value && t[2..][|value| + 1..] == rest;
  }

  method FindComma(buf: array<byte>, begin: nat, end: nat) returns (stop: nat)
    requires begin <= end < buf.Length
    ensures begin <= stop <= end && (stop < end ==> buf[stop] == COMMA)
    ensures forall i :: begin <= i < stop ==> buf[i] != COMMA
  {
    stop := begin;
    while stop < end && buf[stop] != COMMA
      invariant begin <= stop <= end && forall i :: begin <= i < stop ==> buf[i] != COMMA
    {
      stop := stop + 1;
    }
  }

  /** The C string in `buf` from `at` to the NUL at `end`; a comma that ends the value is cut to a NUL. */
  method ReadAttrValue(buf: array<byte>, at: nat, end: nat, a: byte) returns (value: Option<seq<byte>>, next: nat)
    requires at <= end < buf.Length && buf[end] == 0 && 0 !in buf[at..end] && a != 0
    modifies buf
    ensures at <= next <= end && buf[end] == 0
    ensures var r := AttrValue(old(buf[at..end]), a);
            (value.Some? <==> r.Some?) && (r.Some? ==> value.value == r.value.value && buf[next..end] == r.value.rest)
    ensures forall i :: 0 <= i < buf.Length && (i < at || end <= i) ==> buf[i] == old(buf[i])
  {
    hide AttrValue;
    ghost var c := buf[..];
    assert c[at..end] == buf[at..end];
    if buf[at] != a {
      NoAttrIn(c, at, end, a);
      return None, at;
    }
    var begin := at + 1;
    if buf[begin] != EQUALS {
      NoAttrIn(c, at, end, a);
      return None, at;
    }
    begin := begin + 1;
    var stop := FindComma(buf, begin, end);
    AttrIn(c, at, end, a, stop);
    value := Some(buf[begin..stop]);
    assert buf[begin..stop] == c[begin..stop];
    if stop < end {
      buf[stop] := 0;
      next := stop + 1;
    } else {
      next := stop;
    }
    assert buf[next..end] == c[next..end];
  }

  lemma NoAttrIn(c: seq<byte>, at: nat, end: nat, a: byte)
    requires at <= end < |c| && c[end] == 0 && a != 0
    requires c[at] != a || c[at + 1] != EQUALS
    ensures AttrValue(c[at..end], a) == None
  {
  }

  lemma AttrIn(c: seq<byte>, at: nat, end: nat, a: byte, stop: nat)
    requires at + 2 <= stop <= end < |c| && c[at] == a && c[at + 1] == EQUALS
    requires (stop < end ==> c[stop] == COMMA) && forall i :: at + 2 <= i < stop ==> c[i] != COMMA
    ensures AttrValue(c[at..end], a) == Some(Attr(c[at + 2..stop], if stop < end then c[stop + 1..end] else []))
  {
    var s := c[at..end];
    assert s[2..] == c[at + 2..end];
    FirstCommaIs(s[2..], stop - at - 2);
    assert s[2..][..stop - at - 2] == c[at + 2..stop];
    assert stop < end ==> s[2..][stop - at - 2 + 1..] == c[stop + 1..end];
  }

  // ------------------------------------------------------------ the server's messages

  predicate IsSpace(c: char) {
    c == ' ' || 9 as char <= c <= 13 as char
  }

  function SkipSpace(s: string): string {
    if s != "" && IsSpace(s[0]) then SkipSpace(s[1..]) else s
  }

  /** A 64-bit long stored into a 32-bit int. */
  function Truncated(v: int): (n: int)
    ensures -0x8000_0000 <= n <= 0x7FFF_FFFF && (v - n) % 0x1_0000_0000 == 0
  {
    (v + 0x8000_0000) % 0x1_0000_0000 - 0x8000_0000
  }

  /** `strtol` on the whole attribute, stored into an int and required to be positive. */
  function IterationCount(t: seq<byte>): Option<int> {
    var s := SkipSpace(seq(|t|, i requires 0 <= i < |t| => t[i] as char));
    var neg := s != "" && s[0] == '-';
    var body := if s != "" && (s[0] == '-' || s[0] == '+') then s[1..] else s;
    var d := Decimal.DigitPrefix(body);
    var v: int := Decimal.Value(d);
    var long := Decimal.Clamp(if neg then -v else v, JsonValue.INT64_MIN, JsonValue.INT64_MAX).value;
    if d == "" || |d| < |body| || Truncated(long) < 1 then None else Some(Truncated(long))
  }

  datatype ServerFirst = ServerFirst(nonce: seq<byte>, salt: seq<byte>, iterations: int)

  /** What a server-first message says, if it is acceptable; anything after the iteration count is let pass. */
  function ReadFirst(input: seq<byte>, clientNonce: seq<byte>): Option<ServerFirst> {
    var r := AttrValue(input, 114);
    if r.None? || !(clientNonce <= r.value.value) then None
    else
      var s := AttrValue(r.value.rest, 115);
      if s.None? then None
      else
        var salt := Decoding(s.value.value, 0);
        if salt.None? then None
        else
          var i := AttrValue(s.value.rest, 105);
          if i.None? then None
          else
            var n := IterationCount(i.value.value);
            if n.None? then None else Some(ServerFirst(r.value.value, salt.value, n.value))
  }

  /** The signature a server-final message carries. */
  function ReadFinal(input: seq<byte>): (r: Option<Key>) {
    if input != [] && input[0] == 101 then None
    else
      var v := AttrValue(input, 118);
      if v.None? then None
      else
        var sig := Decoding(v.value.value, 0);
        if sig.None? || |sig.value| != 32 then None else Some(sig.value)
  }

  // ------------------------------------------------------------ the client's messages

  datatype Binding = Disable | Prefer | Require

  /** The gs2 header's flag: p for channel binding, y for a client that could, n for one that cannot. */
  function Gs2Flag(plus: bool, binding: Binding, ssl: bool): seq<byte> {
    if plus then Ascii("p=tls-server-end-point")
    else if binding != Disable && ssl then Ascii("y")
    else Ascii("n")
  }

  function FirstBare(clientNonce: seq<byte>): seq<byte> {
    Ascii("n=,r=") + clientNonce
  }

  /** The "c=" attribute as the code writes it: two of its values are spelled out. */
  function CbindAttr(plus: bool, binding: Binding, ssl: bool, certHash: seq<byte>): seq<byte> {
    if plus then Ascii("c=") + Encoding(Ascii("p=tls-server-end-point,,") + certHash)
    else if binding != Disable && ssl then Ascii("c=eSws")
    else Ascii("c=biws")
  }

  function WithoutProof(plus: bool, binding: Binding, ssl: bool, certHash: seq<byte>, nonce: seq<byte>): seq<byte> {
    CbindAttr(plus, binding, ssl, certHash) + Ascii(",r=") + nonce
  }

  /** AuthMessage of RFC 5802, section 3. */
  function AuthMessage(firstBare: seq<byte>, serverFirst: seq<byte>, withoutProof: seq<byte>): seq<byte> {
    firstBare + [COMMA] + serverFirst + [COMMA] + withoutProof
  }

  function ServerSignature(c: Crypto, salted: Key, auth: seq<byte>): Key {
    c.hmac(c.hmac(salted, Ascii("Server Key")), auth)
  }

  function XorBits(a: nat, b: nat, n: nat): nat
    decreases n
  {
    if n == 0 then 0 else XorBits(a / 2, b / 2, n - 1) * 2 + (a % 2 + b % 2) % 2
  }

  lemma {:induction false} XorBound(a: nat, b: nat, n: nat)
    ensures XorBits(a, b, n) <= Ones(n)
    decreases n
  {
    if n > 0 {
      XorBound(a / 2, b / 2, n - 1);
    }
  }

  function Ones(n: nat): nat {
    if n == 0 then 0 else Ones(n - 1) * 2 + 1
  }

  function Xor(a: byte, b: byte): byte {
    XorBound(a, b, 8);
    assert Ones(2) == 3 && Ones(4) == 15 && Ones(6) == 63 && Ones(8) == 255;
    XorBits(a, b, 8)
  }

  lemma HalvesAndBit(high: nat, a: nat, b: nat)
    ensures var x := high * 2 + (a % 2 + b % 2) % 2;
            x / 2 == high && (x % 2 + b % 2) % 2 == a % 2
    ensures a == a / 2 * 2 + a % 2
  {
  }

  lemma {:induction false} XorTwice(a: nat, b: nat, n: nat)
    requires a <= Ones(n)
    ensures XorBits(XorBits(a, b, n), b, n) == a
    decreases n
  {
    if n > 0 {
      XorTwice(a / 2, b / 2, n - 1);
      HalvesAndBit(XorBits(a / 2, b / 2, n - 1), a, b);
    }
  }

  function XorAll(a: Key, b: Key): Key {
    seq(32, i requires 0 <= i < 32 => Xor(a[i], b[i]))
  }

  /** ClientProof of RFC 5802, section 3. */
  function ClientProof(c: Crypto, salted: Key, auth: seq<byte>): Key {
    var clientKey := c.hmac(salted, Ascii("Client Key"));
    XorAll(clientKey, c.hmac(c.hash(clientKey), auth))
  }

  /** A server that stored the hash of the client's key finds that key in the proof. */
  lemma ServerAcceptsProof(c: Crypto, salted: Key, auth: seq<byte>)
    ensures var clientKey := c.hmac(salted, Ascii("Client Key"));
            var storedKey := c.hash(clientKey);
            var found := XorAll(ClientProof(c, salted, auth), c.hmac(storedKey, auth));
            found == clientKey && c.hash(found) == storedKey
  {
    var clientKey := c.hmac(salted, Ascii("Client Key"));
    var sig := c.hmac(c.hash(clientKey), auth);
    assert Ones(2) == 3 && Ones(4) == 15 && Ones(6) == 63 && Ones(8) == 255;
    forall i | 0 <= i < 32
      ensures Xor(Xor(clientKey[i], sig[i]), sig[i]) == clientKey[i]
    {
      XorTwice(clientKey[i], sig[i], 8);
    }
    assert XorAll(XorAll(clientKey, sig), sig) == clientKey;
  }

  /** The flag of the first message and the binding data of the second agree, as RFC 5802 section 6 asks. */
  lemma CbindMatchesFlag(plus: bool, binding: Binding, ssl: bool, certHash: seq<byte>)
    ensures CbindAttr(plus, binding, ssl, certHash) ==
            Ascii("c=") + Encoding(Gs2Flag(plus, binding, ssl) + Ascii(",,") + (if plus then certHash else []))
  {
    hide Encoding;
    if plus {
      assert Ascii("p=tls-server-end-point,,") == Ascii("p=tls-server-end-point") + Ascii(",,");
      assert Ascii("p=tls-server-end-point") + Ascii(",,") + certHash == Ascii("p=tls-server-end-point,,") + certHash;
    } else if binding != Disable && ssl {
      Spelled(121, Ascii("eSws"));
      assert Ascii("y") + Ascii(",,") + [] == [121, COMMA, COMMA];
      assert Ascii("c=eSws") == Ascii("c=") + Ascii("eSws");
    } else {
      Spelled(110, Ascii("biws"));
      assert Ascii("n") + Ascii(",,") + [] == [110, COMMA, COMMA];
      assert Ascii("c=biws") == Ascii("c=") + Ascii("biws");
    }
  }

  /** Base64 of "y,," and "n,,". */
  lemma Spelled(flag: byte, text: seq<byte>)
    requires (flag == 121 && text == Ascii("eSws")) || (flag == 110 && text == Ascii("biws"))
    ensures Encoding([flag, COMMA, COMMA]) == text
  {
    var s := [flag, COMMA, COMMA];
    var n := flag * 0x1_0000 + 44 * 0x100 + 44;
    var q := [Symbol(n / 0x4_0000), Symbol(n / 0x1000 % 64), Symbol(n / 64 % 64), Symbol(n % 64)];
    assert s[3..] == [];
    assert Encoding(s) == q by {
      hide Symbol;
      assert Encoding(s) == Quartet(n, 4) + Encoding([]);
    }
    hide Encoding, Quartet;
    if flag == 121 {
      assert n / 0x4_0000 == 30 && n / 0x1000 == 1938 && n / 64 == 124080 && n % 64 == 44;
      assert q == [101, 83, 119, 115];
    } else {
      assert n / 0x4_0000 == 27 && n / 0x1000 == 1762 && n / 64 == 112816 && n % 64 == 44;
      assert q == [98, 105, 119, 115];
    }
  }

  // ------------------------------------------------------------ an honest server is believed

  /** Outside its alphabet and the pad, base64 text has no character. */
  lemma {:induction false} EncodingLacks(s: seq<byte>, c: byte)
    requires Lookup(c) < 0 && c != PAD
    ensures c !in Encoding(s)
  {
    hide Symbol, Number, Lookup;
    if |s| > 2 {
      EncodingLacks(s[3..], c);
      QuartetLacks(Number(s[0], s[1], s[2]), 4, c);
    } else if |s| == 2 {
      QuartetLacks(Number(s[0], s[1], 0), 3, c);
    } else if |s| == 1 {
      QuartetLacks(Number(s[0], 0, 0), 2, c);
    }
  }

  lemma QuartetLacks(n: int, k: int, c: byte)
    requires 0 <= n < 0x100_0000 && Lookup(c) < 0 && c != PAD
    ensures c !in Quartet(n, k)
  {
    hide Symbol, Lookup;
    var q := Quartet(n, k);
    assert Lookup(q[0]) >= 0 && Lookup(q[1]) >= 0;
    assert (q[2] == PAD || Lookup(q[2]) >= 0) && (q[3] == PAD || Lookup(q[3]) >= 0);
  }

  /** Neither a comma nor a NUL. */
  lemma EncodingIsPlain(s: seq<byte>)
    ensures COMMA !in Encoding(s) && 0 !in Encoding(s)
  {
    EncodingLacks(s, COMMA);
    EncodingLacks(s, 0);
  }

  /** A server-first message as RFC 5802 section 7 writes it. */
  function FirstMessage(clientNonce: seq<byte>, serverNonce: seq<byte>, salt: seq<byte>, count: seq<byte>): seq<byte> {
    [114, EQUALS] + (clientNonce + serverNonce) + [COMMA] + ([115, EQUALS] + Encoding(salt) + [COMMA] + ([105,
        EQUALS] + count))
  }

  /** A server-final message with a signature. */
  function FinalMessage(sig: Key): seq<byte> {
    [118, EQUALS] + Encoding(sig)
  }

  /** The server-first message reads back. */
  lemma HonestFirst(clientNonce: seq<byte>, serverNonce: seq<byte>, salt: seq<byte>, count: seq<byte>)
    requires COMMA !in clientNonce && COMMA !in serverNonce && COMMA !in count && IterationCount(count).Some?
    ensures ReadFirst(FirstMessage(clientNonce, serverNonce, salt, count), clientNonce)
         == Some(ServerFirst(clientNonce + serverNonce, salt, IterationCount(count).value))
  {
    hide IterationCount, AttrValue;
    EncodingIsPlain(salt);
    AttrReadsBack(105, count, []);
    AttrReadsBack(115, Encoding(salt), [105, EQUALS] + count);
    AttrReadsBack(114, clientNonce + serverNonce, [115, EQUALS] + Encoding(salt) + [COMMA] + ([105, EQUALS] + count));
    EncodingDecodes(salt);
  }

  /** So does a server-final message with a signature. */
  lemma HonestFinal(sig: Key)
    ensures ReadFinal(FinalMessage(sig)) == Some(sig) && 0 !in FinalMessage(sig)
  {
    hide AttrValue, Encoding, Decoding;
    EncodingIsPlain(sig);
    AttrReadsBack(118, Encoding(sig), []);
    EncodingDecodes(sig);
  }

  /** A printed count is read as a 64-bit long and then cut to an int. */
  lemma PrintedCount(n: nat)
    ensures var t := Truncated(if n > JsonValue.INT64_MAX then JsonValue.INT64_MAX else n);
            IterationCount(Ascii(Decimal.Digits(n))) == if t < 1 then None else Some(t)
  {
    hide Decimal.Digits, Decimal.Value, Decimal.DigitPrefix;
    var s := Decimal.Digits(n);
    Decimal.DigitsShape(n);
    Decimal.ValueOfDigits(n);
    Decimal.DigitPrefixOfDigits(s);
    var t := Ascii(s);
    assert seq(|t|, i requires 0 <= i < |t| => t[i] as char) == s;
    assert Decimal.IsDigit(s[0]);
  }

  /** A count comes back as it is if and only if it is a positive int; one past 2^32 is taken for 1. */
  lemma CountComesBackExactly(n: nat)
    ensures IterationCount(Ascii(Decimal.Digits(n))) == Some(n) <==> 1 <= n <= INT_MAX
    ensures IterationCount(Ascii(Decimal.Digits(0x1_0000_0001))) == Some(1)
  {
    hide IterationCount, Ascii, Decimal.Digits;
    PrintedCount(n);
    PrintedCount(0x1_0000_0001);
  }

  // ------------------------------------------------------------ the exchange

  datatype Phase = Init | NonceSent | ProofSent | Finished

  /** What a step gets from outside: random bytes, the certificate hash, and whether memory and hashing hold up. */
  datatype Env = Env(raw: Option<seq<byte>>, certHash: Option<seq<byte>>, ok: bool)

  /** A payload is at most 2000 bytes long, as `PQconnectPoll` sees to. */
  const MAX_PAYLOAD := 2000

  /** What the proof is bound to. */
  function CertOf(plus: bool, env: Env): seq<byte> {
    if plus && env.certHash.Some? then env.certHash.value else []
  }

  class ScramState {
    const crypto: Crypto
    const plus: bool
    const binding: Binding
    const ssl: bool
    const password: seq<byte>
    var state: Phase
    var clientNonce: seq<byte>
    var firstBare: seq<byte>
    var withoutProof: seq<byte>
    var serverFirst: seq<byte>
    var salt: seq<byte>
    var iterations: int
    var nonce: seq<byte>
    var serverFinal: seq<byte>
    var salted: Key
    var serverSig: Key
    /** The certificate hash the proof was bound to. */
    ghost var boundTo: seq<byte>

    /** Once the proof is out, everything it rests on is what the two first messages said. */
    ghost predicate Valid()
      reads this
    {
      && (state != Init ==> firstBare == FirstBare(clientNonce))
      && (state == ProofSent || state == Finished ==>
            && ReadFirst(serverFirst, clientNonce) == Some(ServerFirst(nonce, salt, iterations))
            && salted == crypto.hi(password, salt, iterations)
            && withoutProof == WithoutProof(plus, binding, ssl, boundTo, nonce))
      && (state == Finished ==> ReadFinal(serverFinal) == Some(serverSig))
    }

    /** The signature that only someone who knows the server key of this password can send. */
    ghost function Expected(): Key
      reads this
    {
      ServerSignature(crypto, salted, AuthMessage(firstBare, serverFirst, withoutProof))
    }

    constructor (crypto: Crypto, plus: bool, binding: Binding, ssl: bool, password: seq<byte>)
      ensures Valid() && state == Init && this.crypto == crypto && this.plus == plus
      ensures this.binding == binding && this.ssl == ssl && this.password == password
    {
      this.crypto, this.plus, this.binding, this.ssl, this.password := crypto, plus, binding, ssl, password;
      state := Init;
      clientNonce, firstBare, withoutProof, serverFirst, salt, nonce, serverFinal := [], [], [], [], [], [], [];
      iterations := 0;
      salted, serverSig := seq(32, _ => 0), seq(32, _ => 0);
      boundTo := [];
    }

    /** `build_client_first_message`. */
    method BuildClientFirst(env: Env) returns (output: Option<seq<byte>>)
      modifies this`clientNonce, this`firstBare
      ensures output.Some? ==>
                firstBare == FirstBare(clientNonce) && env.raw.Some? && clientNonce == Encoding(env.raw.value)
      ensures output.Some? ==> output.value == Gs2Flag(plus, binding, ssl) + Ascii(",,") + FirstBare(clientNonce)
      ensures output.None? <==> env.raw.None? || !env.ok
    {
      if env.raw.None? || !env.ok {
        return None;
      }
      clientNonce := Encoding(env.raw.value);
      firstBare := Ascii("n=,r=") + clientNonce;
      return Some(Gs2Flag(plus, binding, ssl) + Ascii(",,") + firstBare);
    }

    /** `read_server_first_message`. */
    method ReadServerFirst(input: seq<byte>, ok: bool) returns (good: bool)
      requires 0 !in input && |input| <= MAX_PAYLOAD
      modifies this`serverFirst, this`nonce, this`salt, this`iterations
      ensures good <==> ok && ReadFirst(input, clientNonce).Some?
      ensures good ==> serverFirst == input && ReadFirst(input, clientNonce) == Some(ServerFirst(nonce, salt,
          iterations))
    {
      hide AttrValue, IterationCount, Decoding;
      if !ok {
        return false;
      }
      serverFirst := input;
      var buf, end := Duplicate(input);
      var r, at := ReadAttrValue(buf, 0, end, 114);
      if r.None? {
        return false;
      }
      if |r.value| < |clientNonce| || r.value[..|clientNonce|] != clientNonce {
        return false;
      }
      nonce := r.value;
      RestHasNoNul(input, 114);
      var s, at2 := ReadAttrValue(buf, at, end, 115);
      if s.None? {
        return false;
      }
      AttrShorter(input, 114);
      AttrShorter(AttrValue(input, 114).value.rest, 115);
      var decoded := DecodeText(s.value);
      if decoded.None? {
        return false;
      }
      salt := decoded.value;
      RestHasNoNul(AttrValue(input, 114).value.rest, 115);
      var i, at3 := ReadAttrValue(buf, at2, end, 105);
      if i.None? {
        return false;
      }
      var n := IterationCount(i.value);
      if n.None? {
        return false;
      }
      iterations := n.value;
      return true;
    }

    /** `read_server_final_message`. */
    method ReadServerFinal(input: seq<byte>, ok: bool) returns (good: bool)
      requires 0 !in input && |input| <= MAX_PAYLOAD && input != []
      modifies this`serverFinal, this`serverSig
      ensures good <==> ok && ReadFinal(input).Some?
      ensures good ==> serverFinal == input && ReadFinal(input) == Some(serverSig)
    {
      hide AttrValue, Decoding;
      if !ok {
        return false;
      }
      serverFinal := input;
      var buf, end := Duplicate(input);
      if buf[0] == 101 {
        var e, at := ReadAttrValue(buf, 0, end, 101);
        return false;
      }
      var v, at := ReadAttrValue(buf, 0, end, 118);
      if v.None? {
        return false;
      }
      AttrShorter(input, 118);
      var sig := DecodeText(v.value);
      if sig.None? || |sig.value| != KEY_LEN {
        return false;
      }
      serverSig := sig.value;
      return true;
    }

    /** `build_client_final_message`. */
    method BuildClientFinal(env: Env) returns (output: Option<seq<byte>>)
      modifies this`withoutProof, this`salted, this`boundTo
      ensures output.Some? <==> env.ok && (plus ==> env.certHash.Some?)
      ensures output.Some? ==> withoutProof == WithoutProof(plus, binding, ssl, boundTo, nonce)
                               && boundTo == CertOf(plus, env)
                               && salted == crypto.hi(password, salt, iterations)
                               && output.value == withoutProof + Ascii(",p=")
                                  + Encoding(ClientProof(crypto, salted, AuthMessage(firstBare, serverFirst,
                                      withoutProof)))
    {
      if !env.ok || (plus && env.certHash.None?) {
        return None;
      }
      var cert := if plus then env.certHash.value else [];
      boundTo := cert;
      withoutProof := CbindAttr(plus, binding, ssl, cert) + Ascii(",r=") + nonce;
      salted := crypto.hi(password, salt, iterations);
      var proof := ClientProof(crypto, salted, AuthMessage(firstBare, serverFirst, withoutProof));
      return Some(withoutProof + Ascii(",p=") + Encoding(proof));
    }

    /**
     `scram_exchange`. Success is reported on exactly one kind of step: the proof is out, and the server
     answers with the signature over the three saved messages.
     */
    method Exchange(input: seq<byte>, env: Env) returns (output: Option<seq<byte>>, done: bool, success: bool)
      requires Valid() && |input| <= MAX_PAYLOAD
      modifies this
      ensures Valid()
      ensures success <==>
                old(state) == ProofSent && env.ok && input != [] && 0 !in input &&
                ReadFinal(input) == Some(old(Expected()))
      ensures success ==> done && state == Finished && Expected() == old(Expected()) && serverSig == Expected()
      ensures state == Finished <==>
                (old(state) == Finished
                 || (old(state) == ProofSent && env.ok && input != [] && 0 !in input && ReadFinal(input).Some?))
      ensures old(state) == ProofSent && state == Finished ==> serverFinal == input && serverFirst == old(serverFirst)
      ensures !done ==> output.Some? && !success
      ensures !done <==> (old(state) == Init && state == NonceSent) || (old(state) == NonceSent && state == ProofSent)
      ensures done && !success && state != Finished ==> state == old(state)
      ensures old(state) == Init ==> (!done <==> env.raw.Some? && env.ok)
      ensures old(state) == Init && !done ==> clientNonce == Encoding(env.raw.value)
      ensures old(state) == NonceSent ==>
                (!done <==> env.ok && input != [] && 0 !in input && ReadFirst(input, old(clientNonce)).Some?
                            && (plus ==> env.certHash.Some?))
      ensures old(state) == NonceSent && !done ==> boundTo == CertOf(plus, env)
      ensures done ==> output == None
      ensures old(state) == Init && !done ==>
                output.value == Gs2Flag(plus, binding, ssl) + Ascii(",,") + FirstBare(clientNonce)
      ensures old(state) == NonceSent && !done ==>
                clientNonce == old(clientNonce) && serverFirst == input && clientNonce <= nonce
                && output.value == withoutProof + Ascii(",p=")
                     + Encoding(ClientProof(crypto, salted, AuthMessage(firstBare, serverFirst, withoutProof)))
    {
      hide ReadFirst, ReadFinal, WithoutProof, FirstBare, Encoding, ClientProof, AuthMessage, ServerSignature, Gs2Flag;
      output, done, success := None, false, false;
      if state != Init {
        if input == [] || 0 in input {
          return None, true, false;
        }
      }
      if state == Init {
        output := BuildClientFirst(env);
        if output.None? {
          return None, true, false;
        }
        state := NonceSent;
      } else if state == NonceSent {
        var good := ReadServerFirst(input, env.ok);
        if !good {
          return None, true, false;
        }
        NonceExtends(input, clientNonce);
        output := BuildClientFinal(env);
        if output.None? {
          return None, true, false;
        }
        state := ProofSent;
      } else if state == ProofSent {
        var good := ReadServerFinal(input, env.ok);
        if !good {
          return None, true, false;
        }
        success := ServerSignature(crypto, salted, AuthMessage(firstBare, serverFirst, withoutProof)) == serverSig;
        done := true;
        state := Finished;
      } else {
        return None, true, false;
      }
    }

    /** `scram_channel_bound`. */
    predicate ChannelBound()
      reads this
    {
      state == Finished && plus
    }
  }

  lemma NonceExtends(input: seq<byte>, clientNonce: seq<byte>)
    requires ReadFirst(input, clientNonce).Some?
    ensures clientNonce <= ReadFirst(input, clientNonce).value.nonce
  {
  }

  method Duplicate(s: seq<byte>) returns (buf: array<byte>, end: nat)
    ensures fresh(buf) && end == |s| && buf.Length == |s| + 1 && buf[..end] == s && buf[0..end] == s && buf[end] == 0
  {
    end := |s|;
    buf := new byte[|s| + 1];
    forall i | 0 <= i < |s| {
      buf[i] := s[i];
    }
    buf[|s|] := 0;
  }

  /** `pg_b64_decode` into a buffer of `pg_b64_dec_len` bytes. */
  method DecodeText(t: seq<byte>) returns (r: Option<seq<byte>>)
    requires |t| <= MAX_PAYLOAD
    ensures r == Decoding(t, 0)
  {
    var dst := new byte[DecLen(|t|)];
    LengthsSuffice([], t);
    var n := Decode(t, dst);
    return if n < 0 then None else Some(dst[..n]);
  }

  lemma AttrShorter(s: seq<byte>, a: byte)
    requires AttrValue(s, a).Some?
    ensures |AttrValue(s, a).value.value| <= |s| && |AttrValue(s, a).value.rest| <= |s|
  {
  }

  lemma RestHasNoNul(s: seq<byte>, a: byte)
    requires AttrValue(s, a).Some? && 0 !in s
    ensures 0 !in AttrValue(s, a).value.rest
  {
  }
}
