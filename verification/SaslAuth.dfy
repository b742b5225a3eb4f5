/**
 fe-auth.c: how the client picks a SASL mechanism, carries the exchange through the server's
 authentication requests, and when it accepts that authentication is over.
 */
module SaslAuth {
  import opened Basics
  import opened Base64
  import opened Scram

  /**
   The server's authentication requests. `Other` stands for every kind that is not SASL, with the outcome of
   its handler.
   */
  datatype Request =
    | AuthOk
    | Sasl(mechanisms: seq<string>, complete: bool)
    | SaslCont(payload: seq<byte>)
    | SaslFinal(payload: seq<byte>)
    | Other(handled: bool)

  const PLUS_NAME := "SCRAM-SHA-256-PLUS"
  const PLAIN_NAME := "SCRAM-SHA-256"

  datatype Choice = Refused | NoMechanism | Plain | Plus

  /** The mechanism that has to come out of a complete list. */
  function Chosen(mechanisms: seq<string>, ssl: bool, binding: Binding): Choice {
    if PLUS_NAME in mechanisms && !ssl then Refused
    else if PLUS_NAME in mechanisms && binding != Disable then Plus
    else if PLAIN_NAME in mechanisms then Plain
    else NoMechanism
  }

  /** What a step gets from outside, beside what the exchange itself needs. */
  datatype Outside = Outside(env: Env, memory: bool, sent: bool)

  predicate Carries(req: Request, payload: seq<byte>) {
    (req.SaslCont? || req.SaslFinal?) && req.payload == payload
  }

  predicate Among(reqs: seq<Request>, payload: seq<byte>) {
    exists i :: 0 <= i < |reqs| && Carries(reqs[i], payload)
  }

  predicate InOrder(reqs: seq<Request>, first: seq<byte>, final: seq<byte>) {
    exists i, j :: 0 <= i < j < |reqs| && Carries(reqs[i], first) && Carries(reqs[j], final)
  }

  lemma OneMore(reqs: seq<Request>, req: Request, first: seq<byte>, final: seq<byte>)
    ensures Among(reqs, first) ==> Among(reqs + [req], first)
    ensures InOrder(reqs, first, final) ==> InOrder(reqs + [req], first, final)
    ensures Carries(req, first) ==> Among(reqs + [req], first)
    ensures Among(reqs, first) && Carries(req, final) ==> InOrder(reqs + [req], first, final)
  {
    var more := reqs + [req];
    assert more[|reqs|] == req && forall i :: 0 <= i < |reqs| ==> more[i] == reqs[i];
  }

  // ------------------------------------------------------------ what a run has to come to

  /** What a connection brings along. */
  datatype Setup = Setup(crypto: Crypto, binding: Binding, ssl: bool, password: Option<seq<byte>>)

  /** How far a run without errors has got. */
  datatype Stage =
    | Idle
    | NonceOut(plus: bool, nonce: seq<byte>)
    | ProofOut(plus: bool, expected: Key)
    | Through(plus: bool)

  /** The stage behind a SASL request; None for an error. */
  function Began(w: Setup, req: Request, out: Outside): Option<Stage>
    requires req.Sasl?
  {
    var choice := Chosen(req.mechanisms, w.ssl, w.binding);
    if !req.complete || choice == Refused || choice == NoMechanism then None
    else if w.binding == Require && choice != Plus then None
    else if w.password == None || w.password.value == [] then None
    else if !out.memory || out.env.raw.None? || !out.env.ok || !out.sent then None
    else Some(NonceOut(choice == Plus, Encoding(out.env.raw.value)))
  }

  /** The salted password and the AuthMessage that the first messages of both sides make. */
  function Salted(w: Setup, nonce: seq<byte>, first: seq<byte>): Key
    requires ReadFirst(first, nonce).Some? && w.password.Some?
  {
    var f := ReadFirst(first, nonce).value;
    w.crypto.hi(w.password.value, f.salt, f.iterations)
  }

  function Auth(w: Setup, plus: bool, nonce: seq<byte>, first: seq<byte>, cert: seq<byte>): seq<byte>
    requires ReadFirst(first, nonce).Some?
  {
    AuthMessage(FirstBare(nonce), first, WithoutProof(plus, w.binding, w.ssl, cert, ReadFirst(first,
        nonce).value.nonce))
  }

  /** The signature the server owes the client after its first message. */
  function Owed(w: Setup, plus: bool, nonce: seq<byte>, first: seq<byte>, cert: seq<byte>): Key
    requires ReadFirst(first, nonce).Some? && w.password.Some?
  {
    ServerSignature(w.crypto, Salted(w, nonce, first), Auth(w, plus, nonce, first, cert))
  }

  /** The stage behind a payload of the server. */
  function Continued(w: Setup, c: Stage, payload: seq<byte>, final: bool, out: Outside): Option<Stage> {
    if !out.memory || !out.env.ok || payload == [] || 0 in payload || w.password.None? then None
    else
      match c
      case NonceOut(plus, nonce) =>
        if final || !out.sent || ReadFirst(payload, nonce).None? || (plus && out.env.certHash.None?) then None
        else Some(ProofOut(plus, Owed(w, plus, nonce, payload, CertOf(plus, out.env))))
      case ProofOut(plus, expected) => if ReadFinal(payload) == Some(expected) then Some(Through(plus)) else None
      case _ => None
  }

  function Handled(w: Setup, c: Stage, req: Request, out: Outside): Option<Stage> {
    match req
    case AuthOk => if w.binding == Require && c != Through(true) then None else Some(c)
    case Sasl(_, _) => if c == Idle then Began(w, req, out) else None
    case SaslCont(payload) => Continued(w, c, payload, false, out)
    case SaslFinal(payload) => Continued(w, c, payload, true, out)
    case Other(handled) => if w.binding == Require || !handled then None else Some(c)
  }

  /** The run is accepted: every request up to an OK is handled. */
  predicate Accepts(w: Setup, c: Stage, reqs: seq<Request>, outs: seq<Outside>)
    requires |outs| == |reqs|
    decreases |reqs|
  {
    reqs != [] &&
    var n := Handled(w, c, reqs[0], outs[0]);
    n.Some? && (reqs[0].AuthOk? || Accepts(w, n.value, reqs[1..], outs[1..]))
  }

  /**
   A server that knows the password's keys and follows RFC 5802 is accepted, and it finds the client's key
   in the proof it is sent.
   */
  lemma HonestRunAccepted(w: Setup, mechanisms: seq<string>, raw: seq<byte>, cert: Option<seq<byte>>,
                          serverNonce: seq<byte>, salt: seq<byte>, count: seq<byte>)
    requires w.password.Some? && w.password.value != []
    requires var choice := Chosen(mechanisms, w.ssl, w.binding);
             choice == Plus || (choice == Plain && w.binding != Require)
    requires Chosen(mechanisms, w.ssl, w.binding) == Plus ==> cert.Some?
    requires COMMA !in serverNonce && 0 !in serverNonce && COMMA !in count && 0 !in count && IterationCount(count).Some?
    ensures var plus, nonce := Chosen(mechanisms, w.ssl, w.binding) == Plus, Encoding(raw);
            var out := Outside(Env(Some(raw), cert, true), true, true);
            var first := FirstMessage(nonce, serverNonce, salt, count);
            && ReadFirst(first, nonce).Some?
            && var sig, salted := Owed(w, plus, nonce, first, CertOf(plus, out.env)), Salted(w, nonce, first);
               var auth, key := Auth(w, plus, nonce, first, CertOf(plus, out.env)), w.crypto.hmac(salted,
                   Ascii("Client Key"));
               && XorAll(ClientProof(w.crypto, salted, auth), w.crypto.hmac(w.crypto.hash(key), auth)) == key
               && Accepts(w, Idle, [Sasl(mechanisms, true), SaslCont(first), SaslFinal(FinalMessage(sig)), AuthOk],
                   [out, out, out, out])
  {
    hide ReadFirst, ReadFinal, Encoding, FirstMessage, FinalMessage, Owed, Salted, Auth, IterationCount, Chosen,
        ClientProof, XorAll;
    var plus, nonce := Chosen(mechanisms, w.ssl, w.binding) == Plus, Encoding(raw);
    var out := Outside(Env(Some(raw), cert, true), true, true);
    var first := FirstMessage(nonce, serverNonce, salt, count);
    EncodingIsPlain(raw);
    HonestFirst(nonce, serverNonce, salt, count);
    FirstHasNoNul(nonce, serverNonce, salt, count);
    var sig := Owed(w, plus, nonce, first, CertOf(plus, out.env));
    ServerAcceptsProof(w.crypto, Salted(w, nonce, first), Auth(w, plus, nonce, first, CertOf(plus, out.env)));
    HonestFinal(sig);
    FinalNotEmpty(sig);
    var reqs, outs := [Sasl(mechanisms, true), SaslCont(first), SaslFinal(FinalMessage(sig)), AuthOk], [out, out,
        out, out];
    assert reqs[1..] == [SaslCont(first), SaslFinal(FinalMessage(sig)), AuthOk] && outs[1..] == [out, out, out];
    assert reqs[1..][1..] == [SaslFinal(FinalMessage(sig)), AuthOk] && outs[1..][1..] == [out, out];
    assert reqs[1..][1..][1..] == [AuthOk] && outs[1..][1..][1..] == [out];
    assert Accepts(w, Through(plus), [AuthOk], [out]);
    assert Accepts(w, ProofOut(plus, sig), reqs[1..][1..], outs[1..][1..]);
    assert Accepts(w, NonceOut(plus, nonce), reqs[1..], outs[1..]);
  }

  lemma FirstHasNoNul(nonce: seq<byte>, serverNonce: seq<byte>, salt: seq<byte>, count: seq<byte>)
    requires 0 !in nonce && 0 !in serverNonce && 0 !in count
    ensures 0 !in FirstMessage(nonce, serverNonce, salt, count) && FirstMessage(nonce, serverNonce, salt, count) != []
  {
    hide Encoding;
    EncodingIsPlain(salt);
  }

  lemma FinalNotEmpty(sig: Key)
    ensures FinalMessage(sig) != []
  {
  }

  // ------------------------------------------------------------ the connection

  class Connection {
    const crypto: Crypto
    const binding: Binding
    const ssl: bool
    const password: Option<seq<byte>>
    var sasl: bool
    var saslState: ScramState?
    var passwordNeeded: bool
    /** No call has returned an error. */
    ghost var clean: bool
    /** The requests handled so far. */
    ghost var trace: seq<Request>

    /** In a run without errors a finished exchange is one whose server signature was the expected one. */
    ghost predicate Valid()
      reads this, if saslState == null then {} else {saslState}
    {
      && (clean ==> Came())
      && (saslState != null ==>
        && sasl
        && saslState.Valid() && saslState.crypto == crypto && saslState.binding == binding && saslState.ssl == ssl
        && password == Some(saslState.password)
        && (binding == Require ==> saslState.plus && ssl)
        && (clean && saslState.state == Finished ==> saslState.serverSig == saslState.Expected()))
    }

    /**
     The server proved that it knows the server key of this password, over a channel the proof is bound
     to: it extended our nonce, and its last message carries the signature over the saved messages.
     */
    ghost predicate ServerProvenBound()
      reads this, if saslState == null then {} else {saslState}
    {
      && saslState != null && saslState.plus && saslState.state == Finished
      && ReadFirst(saslState.serverFirst, saslState.clientNonce).Some?
      && saslState.clientNonce <= saslState.nonce
      && ReadFinal(saslState.serverFinal) == Some(saslState.Expected())
    }

    /** The server's messages the exchange rests on are payloads of requests in the run, in order. */
    ghost predicate Came()
      reads this, if saslState == null then {} else {saslState}
    {
      saslState != null ==>
        && saslState.state != Init
        && (saslState.state == ProofSent ==> Among(trace, saslState.serverFirst))
        && (saslState.state == Finished ==> InOrder(trace, saslState.serverFirst, saslState.serverFinal))
    }

    constructor (crypto: Crypto, binding: Binding, ssl: bool, password: Option<seq<byte>>)
      ensures Valid() && clean && saslState == null && trace == []
    {
      this.crypto, this.binding, this.ssl, this.password := crypto, binding, ssl, password;
      sasl, saslState, passwordNeeded, clean, trace := false, null, false, true, [];
    }

    ghost function Brings(): Setup {
      Setup(crypto, binding, ssl, password)
    }

    /** How far the run has got, as long as there was no error. */
    ghost function Reached(): Stage
      reads this, if saslState == null then {} else {saslState}
    {
      if saslState == null then Idle
      else
        match saslState.state
        case Init => Idle
        case NonceSent => NonceOut(saslState.plus, saslState.clientNonce)
        case ProofSent => ProofOut(saslState.plus, saslState.Expected())
        case Finished => Through(saslState.plus)
    }

    /** The loop over the server's list; None for a list that breaks off. */
    method SelectMechanism(mechanisms: seq<string>, complete: bool) returns (choice: Choice)
      modifies this`sasl
      ensures choice == if PLUS_NAME in mechanisms && !ssl then Refused
                        else if !complete then Refused
                        else Chosen(mechanisms, ssl, binding)
      ensures choice == Plain || choice == Plus ==> sasl
      ensures choice == NoMechanism ==> sasl == old(sasl)
      ensures old(sasl) ==> sasl
    {
      choice := NoMechanism;
      var i := 0;
      while i < |mechanisms|
        invariant 0 <= i <= |mechanisms|
        invariant PLUS_NAME in mechanisms[..i] ==> ssl
        invariant choice == Chosen(mechanisms[..i], ssl, binding) && choice != Refused
        invariant choice == Plain || choice == Plus ==> sasl
        invariant choice == NoMechanism ==> sasl == old(sasl)
        invariant old(sasl) ==> sasl
      {
        var m := mechanisms[i];
        assert mechanisms[..i + 1] == mechanisms[..i] + [m];
        if m == PLUS_NAME {
          if ssl {
            if binding != Disable {
              choice := Plus;
              sasl := true;
            }
          } else {
            return Refused;
          }
        } else if m == PLAIN_NAME && choice == NoMechanism {
          choice := Plain;
          sasl := true;
        }
        i := i + 1;
      }
      assert mechanisms[..i] == mechanisms;
      if !complete {
        return Refused;
      }
    }

    /** `pg_SASL_init`. */
    method SaslInit(mechanisms: seq<string>, complete: bool, out: Outside) returns (ok: bool)
      requires Valid()
      modifies this
      ensures Valid() && clean == (old(clean) && ok) && trace == old(trace)
      ensures ok ==> old(saslState) == null && saslState != null && fresh(saslState) && saslState.state == NonceSent
      ensures ok ==> saslState.plus == (Chosen(mechanisms, ssl, binding) == Plus)
      ensures !ok ==> saslState == old(saslState) || fresh(saslState)
      ensures ok <==> old(saslState) == null && Began(Brings(), Sasl(mechanisms, complete), out).Some?
      ensures ok ==> Began(Brings(), Sasl(mechanisms, complete), out) == Some(Reached())
    {
      ok := false;
      clean := false;
      if binding == Require && !ssl {
        return;
      }
      if saslState != null {
        return;
      }
      var choice := SelectMechanism(mechanisms, complete);
      if choice == Refused || choice == NoMechanism {
        return;
      }
      if binding == Require && choice != Plus {
        return;
      }
      passwordNeeded := true;
      if password == None || password.value == [] {
        return;
      }
      if !out.memory {
        return;
      }
      saslState := new ScramState(crypto, choice == Plus, binding, ssl, password.value);
      var output, done, success := saslState.Exchange([], out.env);
      if done && !success {
        return;
      }
      if !out.sent {
        return;
      }
      clean := old(clean);
      return true;
    }

    /** `pg_SASL_continue`. */
    method SaslContinue(payload: seq<byte>, final: bool, out: Outside) returns (ok: bool)
      requires Valid() && saslState != null && |payload| <= MAX_PAYLOAD
      requires Among(trace, payload)
      requires clean && saslState.state == ProofSent ==> InOrder(trace, saslState.serverFirst, payload)
      modifies this`clean, saslState
      ensures Valid() && clean == (old(clean) && ok)
      ensures ok && final ==> saslState.state == Finished
      ensures ok && saslState.state == Finished ==>
                old(saslState.state) == ProofSent && saslState.serverSig == saslState.Expected()
      ensures old(clean) ==> (ok <==> Continued(Brings(), old(Reached()), payload, final, out).Some?)
      ensures old(clean) && ok ==> Continued(Brings(), old(Reached()), payload, final, out) == Some(Reached())
    {
      hide ReadFirst, ReadFinal, Among, InOrder, Encoding, WithoutProof, FirstBare, AuthMessage, ServerSignature,
          Gs2Flag, ClientProof;
      ok := false;
      ghost var before := clean;
      clean := false;
      if !out.memory {
        return;
      }
      var output, done, success := saslState.Exchange(payload, out.env);
      if final && !done {
        return;
      }
      if output == None && !done {
        return;
      }
      if output != None {
        if !out.sent {
          return;
        }
      }
      if done && !success {
        return;
      }
      clean := before;
      return true;
    }

    /** `check_expected_areq`. */
    predicate Expects(req: Request)
      reads this, if saslState == null then {} else {saslState}
    {
      binding == Require ==>
        match req
        case Sasl(_, _) => true
        case SaslCont(_) => true
        case SaslFinal(_) => true
        case AuthOk => sasl && saslState != null && saslState.ChannelBound()
        case Other(_) => false
    }

    /** `pg_fe_sendauth`. */
    method SendAuth(req: Request, out: Outside) returns (ok: bool)
      requires Valid()
      requires (req.SaslCont? || req.SaslFinal?) ==> |req.payload| <= MAX_PAYLOAD
      modifies this, if saslState == null then {} else {saslState}
      ensures Valid() && clean == (old(clean) && ok) && trace == old(trace) + [req]
      ensures saslState == old(saslState) || fresh(saslState)
      ensures req.AuthOk? && ok && binding == Require && old(clean) ==> ServerProvenBound()
      ensures req.Other? && binding == Require ==> !ok
      ensures old(clean) ==> (ok <==> Handled(Brings(), old(Reached()), req, out).Some?)
      ensures old(clean) && ok ==> Handled(Brings(), old(Reached()), req, out) == Some(Reached())
    {
      hide ReadFirst, ReadFinal, ServerSignature, Among, InOrder;
      ghost var before := clean;
      if saslState != null {
        OneMore(trace, req, saslState.serverFirst, saslState.serverFinal);
        if req.SaslCont? || req.SaslFinal? {
          OneMore(trace, req, saslState.serverFirst, req.payload);
          OneMore(trace, req, req.payload, req.payload);
        }
      }
      trace := trace + [req];
      if !Expects(req) {
        clean := false;
        return false;
      }
      if req.AuthOk? {
        if saslState != null && saslState.state == Finished {
          NonceExtends(saslState.serverFirst, saslState.clientNonce);
        }
        return true;
      }
      if req.Sasl? {
        ok := SaslInit(req.mechanisms, req.complete, out);
        return;
      }
      if req.SaslCont? || req.SaslFinal? {
        if saslState == null {
          clean := false;
          return false;
        }
        ok := SaslContinue(req.payload, req.SaslFinal?, out);
        return;
      }
      clean := before && req.handled;
      return req.handled;
    }
  }

  /** Authentication as `PQconnectPoll` runs it: to the first error, or until the server says it is over. */
  method Authenticate(conn: Connection, reqs: seq<Request>, outs: seq<Outside>) returns (accepted: bool)
    requires conn.Valid() && conn.clean && conn.saslState == null && conn.trace == [] && |outs| == |reqs|
    requires forall i :: 0 <= i < |reqs| && (reqs[i].SaslCont? || reqs[i].SaslFinal?) ==>
        |reqs[i].payload| <= MAX_PAYLOAD
    modifies conn
    ensures conn.Valid() && conn.trace <= reqs
    ensures accepted <==> Accepts(conn.Brings(), Idle, reqs, outs)
    ensures accepted ==> conn.clean && conn.trace != [] && conn.trace[|conn.trace| - 1] == AuthOk
    ensures accepted && conn.binding == Require ==>
              conn.ServerProvenBound() && conn.Came() && forall i :: 0 <= i < |conn.trace| ==> !conn.trace[i].Other?
  {
    hide Connection.ServerProvenBound, Connection.Came;
    var i := 0;
    assert reqs[0..] == reqs && outs[0..] == outs;
    while i < |reqs|
      invariant 0 <= i <= |reqs| && conn.Valid() && conn.clean && conn.trace == reqs[..i]
      invariant conn.saslState == null || fresh(conn.saslState)
      invariant conn.binding == Require ==> forall j :: 0 <= j < i ==> !reqs[j].Other?
      invariant Accepts(conn.Brings(), Idle, reqs, outs) <==> Accepts(conn.Brings(), conn.Reached(), reqs[i..],
          outs[i..])
    {
      assert reqs[..i + 1] == reqs[..i] + [reqs[i]];
      assert reqs[i..][0] == reqs[i] && outs[i..][0] == outs[i] && reqs[i..][1..] == reqs[i + 1..] &&
          outs[i..][1..] == outs[i + 1..];
      var ok := conn.SendAuth(reqs[i], outs[i]);
      if !ok {
        return false;
      }
      if reqs[i].AuthOk? {
        return true;
      }
      i := i + 1;
    }
    return false;
  }
}
