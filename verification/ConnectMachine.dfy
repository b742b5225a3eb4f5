/**
 The connection state machine of fe-connect.c as functions of what a connection remembers: one turn of
 `PQconnectPoll`, one call, and a whole connection. Module ConnectPoll proves that the code computes them.
 */
module ConnectMachine {

  datatype Status =
    | NEEDED | STARTED | MADE | SSL_STARTUP | GSS_STARTUP | AWAITING_RESPONSE | AUTH_OK
    | CHECK_TARGET | CHECK_WRITABLE | CHECK_STANDBY | CONSUME | OK | BAD

  datatype Polling = Failed | Reading | Writing | Done

  datatype SslMode = SslDisable | SslAllow | SslPrefer | SslRequire

  datatype GssMode = GssDisable | GssPrefer | GssRequire

  datatype Target = Any | ReadWrite | ReadOnly | Primary | Standby | PreferStandby | PreferStandbyPass2

  datatype Tri = Unknown | Yes | No

  datatype Addr = Addr(isUnix: bool)

  // ------------------------------------------------------------ what can be answered

  datatype Resolve = PortFatal | Unusable | Addrs(list: seq<Addr>)

  datatype Sock = NoSocket | SetupFails | ConnectFails | InProgress | Connected

  datatype Byte = NoByte | Accept | Refuse | ErrorByte | Garbage

  datatype Message = Incomplete | Malformed | OldError | Error(cannotConnectNow: bool) | Request(handled: bool,
      isOk: bool)

  datatype Result = Nothing | Row(positive: bool) | Fatal(appnameUnknown: bool)

  datatype Answer = Answer(
    read: int,                 // pqReadData: negative, zero or positive
    resolve: Resolve,          // the host's addresses
    sock: Sock,                // socket() up to connect()
    sockError: int,            // getsockopt: -1 for its own failure, otherwise SO_ERROR
    good: bool,                // getsockname, credentials, packets sent, input consumed
    haveCred: bool,            // pg_GSS_have_cred_cache
    byte: Byte,                // the answer to an encryption request
    handshake: Polling,        // pqsecure_open_client, pqsecure_open_gss
    early: bool,               // data that came before the handshake was over
    message: Message,          // an authentication request or error
    busy: bool,                // PQisBusy
    result: Result,            // PQgetResult
    reportedReadOnly: Tri, reportedStandby: Tri, oldServer: bool)

  datatype Wait = Ready | TimedOut | HardFailure

  /** One round of the blocking loop: how the wait ended, and the answers of the poll after it. */
  datatype Event = Event(wait: Wait, answers: seq<Answer>)

  /** How a state's turn ends. */
  datatype Next = Return(r: Polling) | KeepGoing | NewConnection | ErrorReturn

  // ------------------------------------------------------------ what a connection remembers

  datatype Settings = Settings(nconnhost: nat, sslmode: SslMode, gssencmode: GssMode, sendsAppname: bool)

  /** The host and the address that are being tried, and what is to be tried next. */
  datatype Place = Place(whichhost: int, addrs: seq<Addr>, addrCur: nat, tryNextAddr: bool, tryNextHost: bool,
                         target: Target)

  /** What may still be tried on the same address. */
  datatype Fallbacks = Fallbacks(sendAppname: bool, allowSslTry: bool, waitSslTry: bool, tryGss: bool)

  datatype Link = Link(sslInUse: bool, gctx: bool, gssenc: bool, overUnix: bool, unreadError: bool)

  /** What the server said about itself. */
  datatype Kind = Kind(readOnly: Tri, hotStandby: Tri)

  datatype Conn = Conn(status: Status, at: Place, fb: Fallbacks, link: Link, kind: Kind)

  datatype Moved = Moved(c: Conn, next: Next)

  // ------------------------------------------------------------ before the switch

  function FreshFallbacks(w: Settings): Fallbacks {
    Fallbacks(true, w.sslmode != SslDisable, w.sslmode == SslAllow, w.gssencmode != GssDisable)
  }

  function Dropped(c: Conn): Conn {
    c.(status := NEEDED, link := Link(false, false, false, c.link.overUnix, false), kind := Kind(Unknown, Unknown))
  }

  predicate MoreAddresses(at: Place) {
    at.addrs != [] && at.addrCur + 1 < |at.addrs|
  }

  datatype Sought = Sought(at: Place, next: Next)

  /** The next host, or the first host of the second pass. */
  function HostAfter(w: Settings, at: Place, resolve: Resolve): Sought {
    if !(at.whichhost + 1 < w.nconnhost) && !(at.target == PreferStandby && w.nconnhost > 0) then
      Sought(at, ErrorReturn)
    else
      var d := if at.whichhost + 1 < w.nconnhost then at.(whichhost := at.whichhost + 1, addrs := [])
               else at.(whichhost := 0, target := PreferStandbyPass2, addrs := []);
      match resolve
      case PortFatal => Sought(d, ErrorReturn)
      case Unusable => Sought(d, KeepGoing)
      case Addrs(list) =>
        if list == [] then Sought(d, KeepGoing)
        else Sought(d.(addrs := list, addrCur := 0, tryNextHost := false), NewConnection)
  }

  /** The next address, if it is time for one and there is one. */
  function AddressAfter(at: Place): Place {
    if !at.tryNextAddr then at
    else if MoreAddresses(at) then at.(addrCur := at.addrCur + 1, tryNextAddr := false)
    else at.(tryNextAddr := false, tryNextHost := true)
  }

  function CandidateOf(w: Settings, at: Place, resolve: Resolve): Sought {
    var d := AddressAfter(at);
    if d.tryNextHost then HostAfter(w, d, resolve) else Sought(d, NewConnection)
  }

  /** `NewConnection` lets the switch have its turn. */
  function Advanced(w: Settings, c: Conn, ans: Answer, needNew: bool): Moved {
    var s := CandidateOf(w, c.at, ans.resolve);
    var d := c.(at := s.at);
    if s.next != NewConnection then Moved(d, s.next)
    else if c.at.tryNextAddr || c.at.tryNextHost then Moved(Dropped(d.(fb := FreshFallbacks(w))), NewConnection)
    else if needNew then Moved(Dropped(d), NewConnection)
    else Moved(d, NewConnection)
  }

  // ------------------------------------------------------------ the states of the switch

  function NeededOf(w: Settings, c: Conn, sock: Sock): Moved {
    if c.at.addrs == [] || c.at.addrCur >= |c.at.addrs| then Moved(c.(at := c.at.(tryNextHost := true)), KeepGoing)
    else
      var d := c.(link := c.link.(overUnix := c.at.addrs[c.at.addrCur].isUnix));
      match sock
      case InProgress => Moved(d.(status := STARTED), Return(Writing))
      case Connected => Moved(d.(status := STARTED), KeepGoing)
      case failed =>
        if failed == NoSocket && !MoreAddresses(c.at) && c.at.whichhost + 1 == w.nconnhost then Moved(d, ErrorReturn)
        else Moved(d.(at := c.at.(tryNextAddr := true)), KeepGoing)
  }

  function StartedOf(c: Conn, ans: Answer): Moved {
    if ans.sockError == -1 then Moved(c, ErrorReturn)
    else if ans.sockError != 0 then Moved(c.(at := c.at.(tryNextAddr := true)), KeepGoing)
    else if !ans.good then Moved(c, ErrorReturn)
    else Moved(c.(status := MADE), Return(Writing))
  }

  /** GSS encryption if it may still be had, then SSL, then the startup packet. */
  function MadeOf(w: Settings, c: Conn, ans: Answer): Moved {
    if !ans.good then Moved(c, ErrorReturn)
    else
      var fb := c.fb.(allowSslTry := c.fb.allowSslTry && !c.link.overUnix,
                      tryGss := c.fb.tryGss && !c.link.overUnix && (c.link.gctx || ans.haveCred));
      var d := c.(fb := fb);
      if fb.tryGss && !c.link.gctx then Moved(d.(status := GSS_STARTUP), Return(Reading))
      else if !c.link.gctx && w.gssencmode == GssRequire then Moved(d, ErrorReturn)
      else if fb.allowSslTry && !fb.waitSslTry && !c.link.sslInUse && !c.link.gssenc then
        Moved(d.(status := SSL_STARTUP), Return(Reading))
      else Moved(d.(status := AWAITING_RESPONSE), Return(Reading))
  }

  function SslStartupOf(w: Settings, c: Conn, ans: Answer): Moved {
    if c.link.sslInUse then SslHandshakeOf(w, c, ans.handshake, ans.early)
    else if ans.read < 0 then Moved(c, ErrorReturn)
    else if ans.read == 0 || ans.byte == NoByte then Moved(c, Return(Reading))
    else if ans.byte != Accept then SslRefused(w, c, ans.byte)
    else if !ans.good then Moved(c, ErrorReturn)
    else SslHandshakeOf(w, c.(link := c.link.(sslInUse := true)), ans.handshake, ans.early)
  }

  function SslRefused(w: Settings, c: Conn, byte: Byte): Moved {
    if byte == ErrorByte then
      Moved(c.(link := c.link.(unreadError := true), status := AWAITING_RESPONSE), KeepGoing)
    else if byte != Refuse || w.sslmode == SslRequire then Moved(c, ErrorReturn)
    else Moved(c.(fb := c.fb.(allowSslTry := false), status := MADE), Return(Writing))
  }

  function SslHandshakeOf(w: Settings, c: Conn, handshake: Polling, early: bool): Moved {
    match handshake
    case Done => if early then Moved(c, ErrorReturn) else Moved(c.(status := MADE), Return(Writing))
    case Failed =>
      var d := c.(link := c.link.(sslInUse := false));
      if w.sslmode == SslPrefer && c.fb.allowSslTry && !c.fb.waitSslTry then
        Moved(d.(fb := c.fb.(allowSslTry := false)), NewConnection)
      else Moved(d, ErrorReturn)
    case p => Moved(c, Return(p))
  }

  function GssStartupOf(w: Settings, c: Conn, ans: Answer): Moved {
    if !c.fb.tryGss || c.link.gctx then GssHandshakeOf(w, c, ans.handshake, ans.early)
    else if ans.read < 0 then Moved(c, ErrorReturn)
    else if ans.read == 0 || ans.byte == NoByte then Moved(c, Return(Reading))
    else if ans.byte != Accept then GssRefused(w, c, ans.byte)
    else GssHandshakeOf(w, c, ans.handshake, ans.early)
  }

  function WithoutGss(c: Conn): Conn {
    c.(fb := c.fb.(tryGss := false))
  }

  function GssRefused(w: Settings, c: Conn, byte: Byte): Moved {
    if byte == ErrorByte then Moved(WithoutGss(c), NewConnection)
    else if byte != Refuse || c.link.gctx || w.gssencmode == GssRequire then Moved(c, ErrorReturn)
    else Moved(WithoutGss(c).(status := MADE), Return(Writing))
  }

  function GssHandshakeOf(w: Settings, c: Conn, handshake: Polling, early: bool): Moved {
    match handshake
    case Done =>
      var d := c.(link := c.link.(gctx := true, gssenc := true));
      if early then Moved(d, ErrorReturn) else Moved(d.(status := MADE), Return(Writing))
    case Failed =>
      if w.gssencmode == GssPrefer then Moved(WithoutGss(c), NewConnection) else Moved(c, ErrorReturn)
    case p => Moved(c.(link := c.link.(gctx := true)), Return(p))
  }

  /** One message of the server: it is waited for, ends the attempt, or is handled and the next one read. */
  function ResponseOf(w: Settings, c: Conn, ans: Answer): Moved {
    match ans.message
    case Incomplete => Moved(c, Return(Reading))
    case Malformed => Moved(c, ErrorReturn)
    case OldError => Moved(c, ErrorReturn)
    case Error(cannotConnectNow) =>
      if !ans.good then Moved(c, ErrorReturn) else ServerErrorOf(w, c, cannotConnectNow)
    case Request(handled, isOk) =>
      // an 'E' that is still unread is the beginning of an error, not of a request
      if c.link.unreadError then Moved(c, Return(Reading))
      else if !ans.good || !handled then Moved(c, ErrorReturn)
      else Moved(if isOk then c.(status := AUTH_OK) else c, KeepGoing)
  }

  function ServerErrorOf(w: Settings, c: Conn, cannotConnectNow: bool): Moved {
    if cannotConnectNow then Moved(c.(at := c.at.(tryNextHost := true)), KeepGoing)
    else if c.link.gssenc && w.gssencmode == GssPrefer then Moved(WithoutGss(c), NewConnection)
    else if w.sslmode == SslAllow && !c.link.sslInUse && c.fb.allowSslTry && c.fb.waitSslTry then
      Moved(c.(fb := c.fb.(waitSslTry := false)), NewConnection)
    else if w.sslmode == SslPrefer && c.link.sslInUse && c.fb.allowSslTry && !c.fb.waitSslTry then
      Moved(c.(fb := c.fb.(allowSslTry := false)), NewConnection)
    else Moved(c, ErrorReturn)
  }

  function AuthOkOf(w: Settings, c: Conn, ans: Answer): Moved {
    var d := c.(kind := Kind(ans.reportedReadOnly, ans.reportedStandby));
    if ans.busy then Moved(d, Return(Reading))
    else if ans.result == Nothing then Moved(d.(status := CHECK_TARGET), KeepGoing)
    else if ans.result == Fatal(true) && c.fb.sendAppname && w.sendsAppname then
      Moved(d.(fb := c.fb.(sendAppname := false)), NewConnection)
    else Moved(d, ErrorReturn)
  }

  function Wrong(c: Conn): Moved {
    Moved(c.(status := OK, at := c.at.(tryNextHost := true)), KeepGoing)
  }

  function Open(c: Conn): Moved {
    Moved(c.(status := OK, at := c.at.(addrs := [])), Return(Done))
  }

  function CheckTargetOf(c: Conn, ans: Answer): Moved {
    var t, k := c.at.target, c.kind;
    if t == ReadWrite || t == ReadOnly then
      if k.readOnly == Unknown || k.hotStandby == Unknown then
        if ans.good then Moved(c.(status := CHECK_WRITABLE), Return(Reading)) else Moved(c, ErrorReturn)
      else if (t == ReadWrite) == (k.readOnly == Yes || k.hotStandby == Yes) then Wrong(c)
      else Open(c)
    else if t == Primary || t == Standby || t == PreferStandby then
      var d := if ans.oldServer then c.(kind := k.(hotStandby := No)) else c;
      if d.kind.hotStandby == Unknown then
        if ans.good then Moved(d.(status := CHECK_STANDBY), Return(Reading)) else Moved(d, ErrorReturn)
      else if (t == Primary) == (d.kind.hotStandby == Yes) then Wrong(d)
      else Open(d)
    else Open(c)
  }

  function ConsumeOf(c: Conn, ans: Answer): Moved {
    if !ans.good then Moved(c, ErrorReturn)
    else if ans.busy || ans.result != Nothing then Moved(c, Return(Reading))
    else Moved(c.(status := CHECK_TARGET), KeepGoing)
  }

  function Told(positive: bool): Tri {
    if positive then Yes else No
  }

  function CheckWritableOf(c: Conn, ans: Answer): Moved {
    if !ans.good then Moved(c, ErrorReturn)
    else if ans.busy then Moved(c, Return(Reading))
    else if !ans.result.Row? then Wrong(c)
    else Moved(c.(status := CONSUME, kind := Kind(Told(ans.result.positive), Told(ans.result.positive))), KeepGoing)
  }

  function CheckStandbyOf(c: Conn, ans: Answer): Moved {
    if !ans.good then Moved(c, ErrorReturn)
    else if ans.busy then Moved(c, Return(Reading))
    else if !ans.result.Row? then Wrong(c)
    else Moved(c.(status := CONSUME, kind := c.kind.(hotStandby := Told(ans.result.positive))), KeepGoing)
  }

  function Switched(w: Settings, c: Conn, ans: Answer): Moved {
    match c.status
    case NEEDED => NeededOf(w, c, ans.sock)
    case STARTED => StartedOf(c, ans)
    case MADE => MadeOf(w, c, ans)
    case SSL_STARTUP => SslStartupOf(w, c, ans)
    case GSS_STARTUP => GssStartupOf(w, c, ans)
    case AWAITING_RESPONSE => ResponseOf(w, c, ans)
    case AUTH_OK => AuthOkOf(w, c, ans)
    case CHECK_TARGET => CheckTargetOf(c, ans)
    case CONSUME => ConsumeOf(c, ans)
    case CHECK_WRITABLE => CheckWritableOf(c, ans)
    case CHECK_STANDBY => CheckStandbyOf(c, ans)
    case _ => Moved(c, ErrorReturn)
  }

  // ------------------------------------------------------------ calls and whole connections

  datatype Turned = Turned(c: Conn, next: Next, still: bool)

  /** One turn of `keep_going`; `still` says that a new connection is still to be made. */
  function TurnOf(w: Settings, c: Conn, ans: Answer, needNew: bool): Turned {
    var a := Advanced(w, c, ans, needNew);
    if a.next != NewConnection then Turned(a.c, a.next, needNew && a.next == KeepGoing)
    else
      var s := Switched(w, a.c, ans);
      Turned(s.c, s.next, false)
  }

  datatype Polled = Polled(c: Conn, r: Polling, finished: bool)

  function PollLoop(w: Settings, c: Conn, answers: seq<Answer>, needNew: bool): Polled
    decreases |answers|
  {
    if answers == [] then Polled(c, Reading, false)
    else
      var t := TurnOf(w, c, answers[0], needNew);
      match t.next
      case ErrorReturn => Polled(t.c.(status := BAD), Failed, true)
      case Return(r) => Polled(t.c, r, true)
      case KeepGoing => PollLoop(w, t.c, answers[1..], t.still)
      case NewConnection => PollLoop(w, t.c, answers[1..], true)
  }

  /** The states in which a call first loads what the server sent. */
  predicate Loads(s: Status) {
    s == AWAITING_RESPONSE || s == AUTH_OK || s == CHECK_WRITABLE || s == CONSUME || s == CHECK_STANDBY
  }

  /** `PQconnectPoll`; not finished when the answers end before the call does. */
  function PollOf(w: Settings, c: Conn, answers: seq<Answer>): Polled {
    if c.status == BAD then Polled(c, Failed, true)
    else if c.status == OK then Polled(c, Done, true)
    else if answers == [] then Polled(c, Reading, false)
    else if Loads(c.status) && answers[0].read < 0 then Polled(c.(status := BAD), Failed, true)
    else if Loads(c.status) && answers[0].read == 0 then Polled(c, Reading, true)
    else PollLoop(w, c, answers, false)
  }

  /** After a timeout the present address is given up. */
  function Timed(c: Conn): Conn {
    c.(status := NEEDED, at := c.at.(tryNextAddr := true))
  }

  /** `connectDBComplete` from what the last call returned. */
  function CompleteOf(w: Settings, c: Conn, events: seq<Event>, timed: bool, flag: Polling): Polled
    decreases |events|
  {
    if flag == Done || flag == Failed then Polled(c, flag, true)
    else if events == [] then Polled(c, flag, false)
    else if events[0].wait == HardFailure then Polled(c.(status := BAD), Failed, true)
    else
      var d := if timed && events[0].wait == TimedOut then Timed(c) else c;
      var p := PollOf(w, d, events[0].answers);
      if !p.finished then p else CompleteOf(w, p.c, events[1..], timed, p.r)
  }

  /** Before the first host, in the first pass. */
  function Rewound(c: Conn): Conn {
    c.(status := NEEDED,
       at := c.at.(whichhost := -1, tryNextAddr := false, tryNextHost := true,
                   target := if c.at.target == PreferStandbyPass2 then PreferStandby else c.at.target))
  }

  /** `connectDBStart` and `connectDBComplete`. */
  function ConnectOf(w: Settings, c: Conn, answers: seq<Answer>, events: seq<Event>, timed: bool): Polled {
    var p := PollOf(w, Rewound(c), answers);
    if !p.finished then p
    else if p.r != Writing then Polled(Dropped(p.c).(status := BAD), Failed, true)
    else CompleteOf(w, p.c, events, timed, Writing)
  }
}
