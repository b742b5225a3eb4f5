/**
 A server's side of RFC 5802, written from the texts alone: it takes the client's two messages apart at
 their commas, checks the binding data and the proof, and signs. The client believes it, and nobody else.
 */
module ScramServer {
  import opened Basics
  import opened Base64
  import opened Scram
  import opened SaslAuth
  import Decimal

  /** What a server keeps of a password (RFC 5802, section 3). */
  datatype Account = Account(salt: seq<byte>, iterations: nat, storedKey: Key, serverKey: Key)

  function Enrolled(c: Crypto, password: seq<byte>, salt: seq<byte>, iterations: nat): Account {
    var salted := c.hi(password, salt, iterations);
    Account(salt, iterations, c.hash(c.hmac(salted, Ascii("Client Key"))), c.hmac(salted, Ascii("Server Key")))
  }

  /** The parts of a text between its commas. */
  function Fields(s: seq<byte>): (fs: seq<seq<byte>>)
    ensures fs != []
  {
    if s == [] then [[]]
    else
      var fs := Fields(s[1..]);
      if s[0] == COMMA then [[]] + fs else [[s[0]] + fs[0]] + fs[1..]
  }

  /** An attribute's value, when the field has its letter. */
  function ValueOf(field: seq<byte>, letter: char): Option<seq<byte>> {
    if Ascii([letter, '=']) <= field then Some(field[2..]) else None
  }

  /** What the server remembers between the client's messages; `first` is its own message. */
  datatype Session = Session(header: seq<byte>, bare: seq<byte>, nonce: seq<byte>, first: seq<byte>)

  /** The flags that fit the mechanism (RFC 5802, section 6): "y" is a downgrade if PLUS was offered. */
  predicate FlagFits(flag: seq<byte>, plus: bool, offered: bool) {
    if plus then flag == Ascii("p=tls-server-end-point")
    else flag == Ascii("n") || (flag == Ascii("y") && !offered)
  }

  /** The client's first message is read, and answered with the nonce, the salt and the iteration count. */
  function Greeted(a: Account, plus: bool, offered: bool, text: seq<byte>, serverNonce: seq<byte>): Option<Session> {
    var fs := Fields(text);
    if |fs| != 4 || !FlagFits(fs[0], plus, offered) || fs[1] != [] then None
    else
      var user, nonce := ValueOf(fs[2], 'n'), ValueOf(fs[3], 'r');
      if user.None? || nonce.None? then None
      else
        var whole := nonce.value + serverNonce;
        Some(Session(fs[0] + Ascii(",,"), fs[2] + Ascii(",") + fs[3], whole,
                     Ascii("r=") + whole + Ascii(",s=") + Encoding(a.salt) + Ascii(",i=")
                     + Ascii(Decimal.Digits(a.iterations))))
  }

  /**
   The client's final message is checked, and signed if the key found in its proof is the client's. `cert` is
   the hash of the server's certificate, which the proof is bound to under PLUS.
   */
  function Signed(c: Crypto, a: Account, se: Session, plus: bool, cert: seq<byte>, text: seq<byte>): Option<Key> {
    var fs := Fields(text);
    if |fs| != 3 then None
    else
      var binding, nonce, proof := ValueOf(fs[0], 'c'), ValueOf(fs[1], 'r'), ValueOf(fs[2], 'p');
      if binding.None? || nonce != Some(se.nonce) || proof.None? then None
      else if Decoding(binding.value, 0) != Some(se.header + if plus then cert else []) then None
      else
        var p := Decoding(proof.value, 0);
        if p.None? || |p.value| != 32 then None
        else
          var auth := se.bare + Ascii(",") + se.first + Ascii(",") + fs[0] + Ascii(",") + fs[1];
          var key := XorAll(p.value, c.hmac(a.storedKey, auth));
          if c.hash(key) != a.storedKey then None else Some(c.hmac(a.serverKey, auth))
  }

  function Reply(sig: Key): seq<byte> {
    Ascii("v=") + Encoding(sig)
  }

  /** The text says this signature: its first attribute is v, in base64, whatever follows a comma. */
  ghost predicate Says(text: seq<byte>, sig: seq<byte>) {
    var fs := Fields(text);
    ValueOf(fs[0], 'v').Some? && Decoding(ValueOf(fs[0], 'v').value, 0) == Some(sig)
  }

  // ------------------------------------------------------------ texts and their fields

  lemma {:induction false} OneField(s: seq<byte>)
    requires COMMA !in s
    ensures Fields(s) == [s]
  {
    if s != [] {
      OneField(s[1..]);
      assert [s[0]] + s[1..] == s;
    }
  }

  lemma {:induction false} FirstField(a: seq<byte>, rest: seq<byte>)
    requires COMMA !in a
    ensures Fields(a + [COMMA] + rest) == [a] + Fields(rest)
    decreases |a|
  {
    var s := a + [COMMA] + rest;
    if a == [] {
      assert s[1..] == rest;
    } else {
      assert s[1..] == a[1..] + [COMMA] + rest;
      FirstField(a[1..], rest);
      assert [a[0]] + a[1..] == a;
    }
  }

  lemma {:induction false} HeadField(s: seq<byte>)
    ensures Fields(s)[0] == s[..FirstComma(s)]
  {
    if s != [] && s[0] != COMMA {
      HeadField(s[1..]);
      assert s[..FirstComma(s)] == [s[0]] + s[1..][..FirstComma(s[1..])];
    }
  }

  lemma LettersValue(letter: char, value: seq<byte>)
    requires letter != ','
    ensures ValueOf(Ascii([letter, '=']) + value, letter) == Some(value)
    ensures letter as int < 256 && COMMA !in value ==> COMMA !in Ascii([letter, '=']) + value
  {
  }

  lemma HelloFields(plus: bool, binding: Binding, ssl: bool, nonce: seq<byte>)
    requires COMMA !in nonce
    ensures var flag := Gs2Flag(plus, binding, ssl);
            Fields(flag + Ascii(",,") + FirstBare(nonce)) == [flag, [], Ascii("n="), Ascii("r=") + nonce]
  {
    hide Fields;
    var flag, last := Gs2Flag(plus, binding, ssl), Ascii("r=") + nonce;
    FlagPlain(plus, binding, ssl);
    PrefixPlain(nonce, []);
    assert FirstBare(nonce) == Ascii("n=") + [COMMA] + last;
    assert Ascii(",,") == [COMMA, COMMA];
    FirstField(Ascii("n="), last);
    OneField(last);
    FirstField([], FirstBare(nonce));
    assert [] + [COMMA] + FirstBare(nonce) == [COMMA] + FirstBare(nonce);
    FirstField(flag, [COMMA] + FirstBare(nonce));
    assert flag + Ascii(",,") + FirstBare(nonce) == flag + [COMMA] + ([COMMA] + FirstBare(nonce));
    assert [flag] + ([[]] + ([Ascii("n=")] + [last])) == [flag, [], Ascii("n="), last];
  }

  lemma FlagPlain(plus: bool, binding: Binding, ssl: bool)
    ensures COMMA !in Gs2Flag(plus, binding, ssl)
  {
  }

  lemma FinalFields(cbind: seq<byte>, nonce: seq<byte>, proof: seq<byte>)
    requires COMMA !in cbind && COMMA !in nonce && COMMA !in proof
    ensures Fields(cbind + Ascii(",r=") + nonce + Ascii(",p=") + proof) ==
            [cbind, Ascii("r=") + nonce, Ascii("p=") + proof]
  {
    hide Fields;
    var r, p := Ascii("r=") + nonce, Ascii("p=") + proof;
    FinalJoined(cbind, nonce, proof);
    PrefixPlain(nonce, proof);
    OneField(p);
    FirstField(r, p);
    FirstField(cbind, r + [COMMA] + p);
    assert [cbind] + ([r] + [p]) == [cbind, r, p];
  }

  lemma PrefixPlain(nonce: seq<byte>, proof: seq<byte>)
    requires COMMA !in nonce && COMMA !in proof
    ensures COMMA !in Ascii("r=") + nonce && COMMA !in Ascii("p=") + proof
  {
  }

  lemma FinalJoined(cbind: seq<byte>, nonce: seq<byte>, proof: seq<byte>)
    ensures cbind + Ascii(",r=") + nonce + Ascii(",p=") + proof ==
            cbind + [COMMA] + ((Ascii("r=") + nonce) + [COMMA] + (Ascii("p=") + proof))
  {
    assert Ascii(",r=") == [COMMA] + Ascii("r=") && Ascii(",p=") == [COMMA] + Ascii("p=");
  }

  // ------------------------------------------------------------ the two sides agree

  /** Whether the client's choice of mechanism fits what was offered. */
  predicate FairOffer(plus: bool, offered: bool, binding: Binding, ssl: bool) {
    (plus ==> offered) && (offered && !plus ==> binding == Disable || !ssl)
  }

  function Hello(plus: bool, binding: Binding, ssl: bool, nonce: seq<byte>): seq<byte> {
    Gs2Flag(plus, binding, ssl) + Ascii(",,") + FirstBare(nonce)
  }

  /** The server's first message is what the client takes it for. */
  lemma Greets(a: Account, plus: bool, offered: bool, binding: Binding, ssl: bool, nonce: seq<byte>,
               serverNonce: seq<byte>) returns (se: Session)
    requires COMMA !in nonce && COMMA !in serverNonce && 1 <= a.iterations <= INT_MAX
    requires FairOffer(plus, offered, binding, ssl)
    ensures Greeted(a, plus, offered, Hello(plus, binding, ssl, nonce), serverNonce) == Some(se)
    ensures se.header == Gs2Flag(plus, binding, ssl) + Ascii(",,") && se.bare == FirstBare(nonce)
    ensures se.nonce == nonce + serverNonce
    ensures se.first == FirstMessage(nonce, serverNonce, a.salt, Ascii(Decimal.Digits(a.iterations)))
    ensures ReadFirst(se.first, nonce) == Some(ServerFirst(se.nonce, a.salt, a.iterations))
  {
    hide Decimal.Digits, IterationCount, Encoding, ReadFirst;
    HelloFields(plus, binding, ssl, nonce);
    LettersValue('n', []);
    LettersValue('r', nonce);
    assert Ascii("n=") + [] == Ascii("n=") == Ascii(['n', '=']) && Ascii("r=") == Ascii(['r', '=']);
    FlagIsFair(plus, offered, binding, ssl);
    se := Greeted(a, plus, offered, Hello(plus, binding, ssl, nonce), serverNonce).value;
    assert FirstBare(nonce) == Ascii("n=") + Ascii(",") + (Ascii("r=") + nonce);
    var count := Ascii(Decimal.Digits(a.iterations));
    FirstSpelled(nonce, serverNonce, a.salt, count);
    CountComesBackExactly(a.iterations);
    DigitsPlain(a.iterations);
    HonestFirst(nonce, serverNonce, a.salt, count);
  }

  lemma FlagIsFair(plus: bool, offered: bool, binding: Binding, ssl: bool)
    requires FairOffer(plus, offered, binding, ssl)
    ensures FlagFits(Gs2Flag(plus, binding, ssl), plus, offered)
  {
  }

  lemma FirstSpelled(nonce: seq<byte>, serverNonce: seq<byte>, salt: seq<byte>, count: seq<byte>)
    ensures Ascii("r=") + (nonce + serverNonce) + Ascii(",s=") + Encoding(salt) + Ascii(",i=") + count ==
            FirstMessage(nonce, serverNonce, salt, count)
  {
    hide Encoding;
    assert Ascii("r=") == [114, EQUALS] && Ascii(",s=") == [COMMA] + [115, EQUALS];
    assert Ascii(",i=") == [COMMA] + [105, EQUALS];
    var s, i: seq<byte> := [115, EQUALS], [105, EQUALS];
    assert [114, EQUALS] + (nonce + serverNonce) + ([COMMA] + s) + Encoding(salt) + ([COMMA] + i) + count
        == [114, EQUALS] + (nonce + serverNonce) + [COMMA] + (s + Encoding(salt) + [COMMA] + (i + count));
  }

  lemma {:induction false} DigitsPlain(n: nat)
    ensures COMMA !in Ascii(Decimal.Digits(n)) && 0 !in Ascii(Decimal.Digits(n))
  {
    hide Decimal.Digits;
    Decimal.DigitsShape(n);
  }

  /** The server finds the client's key in the proof it is sent, and signs what the client expects. */
  lemma Signs(c: Crypto, password: seq<byte>, a: Account, se: Session, plus: bool, binding: Binding, ssl: bool,
              cert: seq<byte>, nonce: seq<byte>)
    requires a == Enrolled(c, password, a.salt, a.iterations)
    requires se.header == Gs2Flag(plus, binding, ssl) + Ascii(",,") && se.bare == FirstBare(nonce) && COMMA !in se.nonce
    ensures var salted, without := c.hi(password, a.salt, a.iterations),
                                   WithoutProof(plus, binding, ssl, if plus then cert else [], se.nonce);
            var auth := AuthMessage(FirstBare(nonce), se.first, without);
            var text := without + Ascii(",p=") + Encoding(ClientProof(c, salted, auth));
            && Signed(c, a, se, plus, cert, text) == Some(ServerSignature(c, salted, auth))
            && Signed(c, a, se, plus, cert, text) == Some(c.hmac(a.serverKey, auth))
  {
    hide Encoding, Decoding, Gs2Flag, FirstBare, CbindAttr, XorAll, ClientProof;
    var bound := if plus then cert else [];
    var header := se.header + bound;
    var cbind := CbindAttr(plus, binding, ssl, bound);
    var salted, without := c.hi(password, a.salt, a.iterations), WithoutProof(plus, binding, ssl, bound, se.nonce);
    var auth := AuthMessage(FirstBare(nonce), se.first, without);
    var proof := ClientProof(c, salted, auth);
    CbindMatchesFlag(plus, binding, ssl, bound);
    assert Gs2Flag(plus, binding, ssl) + Ascii(",,") + (if plus then bound else []) == header;
    EncodingIsPlain(header);
    EncodingIsPlain(proof);
    EncodingDecodes(header);
    EncodingDecodes(proof);
    LettersValue('c', Encoding(header));
    LettersValue('r', se.nonce);
    LettersValue('p', Encoding(proof));
    assert Ascii("c=") == Ascii(['c', '=']) && Ascii("r=") == Ascii(['r', '=']) && Ascii("p=") == Ascii(['p', '=']);
    FinalFields(cbind, se.nonce, Encoding(proof));
    AuthIsSplit(se.bare, se.first, cbind, se.nonce);
    ServerAcceptsProof(c, salted, auth);
    ProofIsXor(c, salted, auth);
  }

  lemma AuthIsSplit(bare: seq<byte>, first: seq<byte>, cbind: seq<byte>, nonce: seq<byte>)
    ensures bare + Ascii(",") + first + Ascii(",") + cbind + Ascii(",") + (Ascii("r=") + nonce) ==
            AuthMessage(bare, first, cbind + Ascii(",r=") + nonce)
  {
    assert Ascii(",") == [COMMA] && Ascii(",r=") == [COMMA] + Ascii("r=");
    assert bare + [COMMA] + first + [COMMA] + cbind + [COMMA] + (Ascii("r=") + nonce)
        == bare + [COMMA] + first + [COMMA] + (cbind + ([COMMA] + Ascii("r=")) + nonce);
  }

  lemma ProofIsXor(c: Crypto, salted: Key, auth: seq<byte>)
    ensures |ClientProof(c, salted, auth)| == 32
  {
  }

  /** The client reads a signature off a text exactly when the text says it. */
  lemma ReadFinalSays(text: seq<byte>, sig: Key)
    ensures ReadFinal(text) == Some(sig) <==> Says(text, sig)
  {
    hide Decoding;
    HeadField(text);
    var head := Fields(text)[0];
    if |text| >= 2 && text[0] == 118 && text[1] == EQUALS {
      var n := FirstComma(text[2..]);
      FirstCommaIs(text, n + 2);
      assert head[2..] == text[2..][..n];
      assert Ascii(['v', '=']) == [118, EQUALS] && head[..2] == [118, EQUALS];
    } else if |head| >= 2 {
      assert text[0] == head[0] && text[1] == head[1];
      assert Ascii(['v', '=']) == [118, EQUALS];
    }
  }

  /** Its own reply says its signature. */
  lemma ReplySays(sig: Key)
    ensures Says(Reply(sig), sig) && Reply(sig) != [] && 0 !in Reply(sig)
  {
    hide Encoding, Decoding;
    EncodingIsPlain(sig);
    LettersValue('v', Encoding(sig));
    assert Ascii("v=") == Ascii(['v', '=']);
    OneField(Reply(sig));
    EncodingDecodes(sig);
  }

  /**
   The client's exchange with this server: both messages it sends are accepted, and of all final messages it
   takes exactly those that say the server's signature.
   */
  method ExchangeWithServer(c: Crypto, plus: bool, offered: bool, binding: Binding, ssl: bool, password: seq<byte>,
                            raw: seq<byte>, cert: seq<byte>, salt: seq<byte>, iterations: nat,
                            serverNonce: seq<byte>, final: seq<byte>)
    returns (hello: seq<byte>, proof: seq<byte>, accepted: bool)
    requires COMMA !in serverNonce && 0 !in serverNonce && 1 <= iterations <= INT_MAX
    requires FairOffer(plus, offered, binding, ssl) && |final| <= MAX_PAYLOAD
    requires |FirstMessage(Encoding(raw), serverNonce, salt, Ascii(Decimal.Digits(iterations)))| <= MAX_PAYLOAD
    ensures var a := Enrolled(c, password, salt, iterations);
            var se := Greeted(a, plus, offered, hello, serverNonce);
            && se.Some?
            && var sig := Signed(c, a, se.value, plus, cert, proof);
               && sig.Some?
               && (accepted <==> 0 !in final && Says(final, sig.value))
               && (final == Reply(sig.value) ==> accepted)
  {
    hide Encoding, Enrolled, Greeted, Signed, Gs2Flag, FirstBare, FirstMessage, ReadFirst, ReadFinal, AuthMessage,
         ClientProof, ServerSignature, WithoutProof, Says, Reply;
    var state := new ScramState(c, plus, binding, ssl, password);
    var env := Env(Some(raw), Some(cert), true);
    var out, done, success := state.Exchange([], env);
    hello := out.value;
    var nonce := state.clientNonce;
    ghost var a := EnrolledWith(c, password, salt, iterations);
    EncodingIsPlain(raw);
    ghost var s := Greets(a, plus, offered, binding, ssl, nonce, serverNonce);
    var first := FirstMessage(nonce, serverNonce, salt, Ascii(Decimal.Digits(iterations)));
    DigitsPlain(iterations);
    FirstHasNoNul(nonce, serverNonce, salt, Ascii(Decimal.Digits(iterations)));
    out, done, success := state.Exchange(first, env);
    proof := out.value;
    Signs(c, password, a, s, plus, binding, ssl, cert, nonce);
    ghost var sig := Signed(c, a, s, plus, cert, proof).value;
    assert state.Expected() == sig;
    ReadFinalSays(final, sig);
    ReplySays(sig);
    NothingSays(sig);
    out, done, accepted := state.Exchange(final, env);
  }

  lemma EnrolledWith(c: Crypto, password: seq<byte>, salt: seq<byte>, iterations: nat) returns (a: Account)
    ensures a == Enrolled(c, password, salt, iterations) && a.salt == salt && a.iterations == iterations
  {
    a := Enrolled(c, password, salt, iterations);
  }

  lemma NothingSays(sig: Key)
    ensures !Says([], sig)
  {
    OneField([]);
  }

  // ------------------------------------------------------------ a whole authentication

  /** The final message of a client, as `ScramState.BuildClientFinal` writes it. */
  function ClientFinal(w: Setup, plus: bool, nonce: seq<byte>, first: seq<byte>, cert: seq<byte>): seq<byte>
    requires ReadFirst(first, nonce).Some? && w.password.Some?
  {
    WithoutProof(plus, w.binding, w.ssl, cert, ReadFirst(first, nonce).value.nonce) + Ascii(",p=")
    + Encoding(ClientProof(w.crypto, Salted(w, nonce, first), Auth(w, plus, nonce, first, cert)))
  }

  /**
   An authentication against this server: the run is accepted if and only if the last payload before the OK
   says the signature the server gives for the client's messages.
   */
  lemma RunWithServer(w: Setup, mechanisms: seq<string>, raw: seq<byte>, cert: seq<byte>, serverNonce: seq<byte>,
                      salt: seq<byte>, iterations: nat, final: seq<byte>) returns (se: Session, sig: Key)
    requires w.password.Some? && w.password.value != []
    requires var choice := Chosen(mechanisms, w.ssl, w.binding);
             choice == Plus || (choice == Plain && w.binding != Require)
    requires COMMA !in serverNonce && 0 !in serverNonce && 1 <= iterations <= INT_MAX
    ensures var plus, nonce := Chosen(mechanisms, w.ssl, w.binding) == Plus, Encoding(raw);
            var a := Enrolled(w.crypto, w.password.value, salt, iterations);
            && Greeted(a, plus, PLUS_NAME in mechanisms, Hello(plus, w.binding, w.ssl, nonce), serverNonce) == Some(se)
            && ReadFirst(se.first, nonce).Some?
            && Signed(w.crypto, a, se, plus, cert, ClientFinal(w, plus, nonce, se.first, if plus then cert else []))
               == Some(sig)
    ensures var out := Outside(Env(Some(raw), Some(cert), true), true, true);
            Accepts(w, Idle, [Sasl(mechanisms, true), SaslCont(se.first), SaslFinal(final), AuthOk],
                    [out, out, out, out])
            <==> 0 !in final && Says(final, sig)
  {
    hide Encoding, Enrolled, Greeted, Signed, Gs2Flag, FirstBare, FirstMessage, ReadFirst, ReadFinal, ClientProof,
         ServerSignature, WithoutProof, Says, Chosen, Hello, IterationCount, Accepts, Owed;
    var plus, nonce := Chosen(mechanisms, w.ssl, w.binding) == Plus, Encoding(raw);
    OfferIsFair(mechanisms, w.ssl, w.binding);
    var a := EnrolledWith(w.crypto, w.password.value, salt, iterations);
    EncodingIsPlain(raw);
    se := Greets(a, plus, PLUS_NAME in mechanisms, w.binding, w.ssl, nonce, serverNonce);
    var bound := if plus then cert else [];
    Signs(w.crypto, w.password.value, a, se, plus, w.binding, w.ssl, cert, nonce);
    sig := OwedIs(w, plus, nonce, se.first, bound);
    DigitsPlain(iterations);
    FirstHasNoNul(nonce, serverNonce, salt, Ascii(Decimal.Digits(iterations)));
    ReadFinalSays(final, sig);
    NothingSays(sig);
    RunIs(w, mechanisms, raw, cert, se.first, final);
  }

  lemma OwedIs(w: Setup, plus: bool, nonce: seq<byte>, first: seq<byte>, cert: seq<byte>) returns (sig: Key)
    requires ReadFirst(first, nonce).Some? && w.password.Some?
    ensures sig == Owed(w, plus, nonce, first, cert)
         == ServerSignature(w.crypto, Salted(w, nonce, first), Auth(w, plus, nonce, first, cert))
  {
    hide ServerSignature, Salted, Auth, ReadFirst;
    sig := Owed(w, plus, nonce, first, cert);
  }

  lemma OfferIsFair(mechanisms: seq<string>, ssl: bool, binding: Binding)
    requires var choice := Chosen(mechanisms, ssl, binding); choice == Plus || choice == Plain
    ensures FairOffer(Chosen(mechanisms, ssl, binding) == Plus, PLUS_NAME in mechanisms, binding, ssl)
  {
  }

  /** What a run of four requests comes to. */
  lemma RunIs(w: Setup, mechanisms: seq<string>, raw: seq<byte>, cert: seq<byte>, first: seq<byte>, final: seq<byte>)
    requires w.password.Some? && w.password.value != []
    requires var choice := Chosen(mechanisms, w.ssl, w.binding);
             choice == Plus || (choice == Plain && w.binding != Require)
    requires ReadFirst(first, Encoding(raw)).Some? && first != [] && 0 !in first
    ensures var plus := Chosen(mechanisms, w.ssl, w.binding) == Plus;
            var out := Outside(Env(Some(raw), Some(cert), true), true, true);
            Accepts(w, Idle, [Sasl(mechanisms, true), SaslCont(first), SaslFinal(final), AuthOk], [out, out, out, out])
            <==> final != [] && 0 !in final
                 && ReadFinal(final) == Some(Owed(w, plus, Encoding(raw), first, if plus then cert else []))
  {
    hide ReadFirst, ReadFinal, Encoding, Owed, Chosen;
    var plus, nonce := Chosen(mechanisms, w.ssl, w.binding) == Plus, Encoding(raw);
    var out := Outside(Env(Some(raw), Some(cert), true), true, true);
    var sig := Owed(w, plus, nonce, first, if plus then cert else []);
    var reqs := [Sasl(mechanisms, true), SaslCont(first), SaslFinal(final), AuthOk];
    var outs := [out, out, out, out];
    assert reqs[1..] == [SaslCont(first), SaslFinal(final), AuthOk] && outs[1..] == [out, out, out];
    assert reqs[1..][1..] == [SaslFinal(final), AuthOk] && outs[1..][1..] == [out, out];
    assert reqs[1..][1..][1..] == [AuthOk] && outs[1..][1..][1..] == [out];
    assert Accepts(w, Through(plus), [AuthOk], [out]);
    assert Accepts(w, ProofOut(plus, sig), reqs[1..][1..], outs[1..][1..]) <==>
           final != [] && 0 !in final && ReadFinal(final) == Some(sig);
    assert Accepts(w, Idle, reqs, outs) == Accepts(w, NonceOut(plus, nonce), reqs[1..], outs[1..]);
  }
}
