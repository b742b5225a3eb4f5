/**
 When a connection comes about: the script of answers leads past hosts that fail or are of the wrong kind to
 one that connects, handles every request and is of the kind asked for. Told turn by turn in terms of the
 answers alone.
 */
module ConnectReach {
  import opened ConnectMachine

  /** The answers left of the call that is running, and the rounds after it. */
  datatype Script = Script(now: seq<Answer>, later: seq<Event>, timed: bool)

  /** The answers after the first. */
  function Rest(s: Script): Script
    requires s.now != []
  {
    s.(now := s.now[1..])
  }

  /** The i-th try of a host, counted over both passes, and one of its addresses. */
  datatype Spot = Spot(i: nat, list: seq<Addr>, j: nat)

  /**
   What an attempt has got to: what may still be tried on this address, which encryption is up, and whether
   the server's 'E' is still unread.
   */
  datatype Phase =
    | Dialed(fb: Fallbacks)
    | Linked(fb: Fallbacks, ssl: bool, gss: bool)
    | GssAsked(fb: Fallbacks, begun: bool)
    | SslAsked(fb: Fallbacks, up: bool)
    | Talking(fb: Fallbacks, ssl: bool, gss: bool, unread: bool)
    | LoggedIn(fb: Fallbacks)
    | Known(k: Kind)
    | WritableAsked(k: Kind)
    | StandbyAsked(k: Kind)
    | Consuming(k: Kind)

  /** The phases in which a call first loads what the server sent. */
  predicate LoadsFirst(p: Phase) {
    p.Talking? || p.LoggedIn? || p.WritableAsked? || p.StandbyAsked? || p.Consuming?
  }

  /** The target of the i-th try: the second pass of prefer-standby takes any server. */
  function TargetAt(w: Settings, t: Target, i: nat): Target {
    if i < w.nconnhost then t else PreferStandbyPass2
  }

  predicate Exists(w: Settings, t: Target, i: nat) {
    i < w.nconnhost || (t == PreferStandby && i < 2 * w.nconnhost)
  }

  /** The host of the i-th try. */
  function HostOf(w: Settings, i: nat): int {
    if i < w.nconnhost then i else i - w.nconnhost
  }

  predicate LastHost(w: Settings, i: nat) {
    HostOf(w, i) + 1 == w.nconnhost
  }

  /** What a server that says this of itself is to a target: right, wrong, or to be asked. */
  datatype Verdict = Ask | Right | Mistaken

  function Judged(t: Target, k: Kind): Verdict {
    match t
    case ReadWrite => if k.readOnly == Unknown || k.hotStandby == Unknown then Ask
                      else if k == Kind(No, No) then Right else Mistaken
    case ReadOnly => if k.readOnly == Unknown || k.hotStandby == Unknown then Ask
                     else if k == Kind(No, No) then Mistaken else Right
    case Primary => if k.hotStandby == Unknown then Ask else if k.hotStandby == No then Right else Mistaken
    case Standby => if k.hotStandby == Unknown then Ask else if k.hotStandby == Yes then Right else Mistaken
    case PreferStandby => if k.hotStandby == Unknown then Ask else if k.hotStandby == Yes then Right else Mistaken
    case Any => Right
    case PreferStandbyPass2 => Right
  }

  /** What the server's age tells: before 9.0 none is a standby. */
  function Aged(t: Target, k: Kind, oldServer: bool): Kind {
    if oldServer && (t == Primary || t == Standby || t == PreferStandby) then k.(hotStandby := No) else k
  }

  // ------------------------------------------------------------ scripts that lead to the h-th try

  /** The i-th host is looked up with the first answer. */
  predicate Seek(w: Settings, t: Target, h: nat, i: nat, s: Script)
    decreases |s.later|, |s.now|, 1
  {
    && s.now != [] && Exists(w, t, i)
    && match s.now[0].resolve
       case PortFatal => false
       case Unusable => Seek(w, t, h, i + 1, Rest(s))
       case Addrs(list) =>
         if list == [] then Seek(w, t, h, i + 1, Rest(s))
         else Dial(w, t, h, Spot(i, list, 0), FreshFallbacks(w), s)
  }

  /** A socket to the address is opened with the first answer. */
  predicate Dial(w: Settings, t: Target, h: nat, at: Spot, fb: Fallbacks, s: Script)
    decreases |s.later|, |s.now|, 0
  {
    && s.now != [] && at.j < |at.list|
    && match s.now[0].sock
       case InProgress => Later(w, t, h, at, Dialed(fb), Rest(s))
       case Connected => Now(w, t, h, at, Dialed(fb), Rest(s))
       case SetupFails => Onward(w, t, h, at, Rest(s))
       case ConnectFails => Onward(w, t, h, at, Rest(s))
       case NoSocket => (at.j + 1 < |at.list| || !LastHost(w, at.i)) && Onward(w, t, h, at, Rest(s))
  }

  /** The next address, or the next host. */
  predicate Onward(w: Settings, t: Target, h: nat, at: Spot, s: Script)
    decreases |s.later|, |s.now|, 2
  {
    if at.j + 1 < |at.list| then Dial(w, t, h, at.(j := at.j + 1), FreshFallbacks(w), s)
    else Seek(w, t, h, at.i + 1, s)
  }

  /** The next call: the wait succeeds, or gives the address up; something came when something is needed. */
  predicate Later(w: Settings, t: Target, h: nat, at: Spot, p: Phase, s: Script)
    decreases |s.later|, |s.now|, 3
  {
    && s.later != [] && s.later[0].wait != HardFailure && s.later[0].answers != []
    && var next := Script(s.later[0].answers, s.later[1..], s.timed);
       if s.timed && s.later[0].wait == TimedOut then Onward(w, t, h, at, next)
       else if LoadsFirst(p) && next.now[0].read == 0 then Later(w, t, h, at, p, next.(now := []))
       else (LoadsFirst(p) ==> next.now[0].read > 0) && Now(w, t, h, at, p, next)
  }

  /** The attempt in this phase goes on with the first answer. */
  predicate Now(w: Settings, t: Target, h: nat, at: Spot, p: Phase, s: Script)
    decreases |s.later|, |s.now|, 0
  {
    s.now != [] &&
    var a, rest := s.now[0], Rest(s);
    match p
    case Dialed(fb) =>
      if a.sockError == 0 then a.good && Later(w, t, h, at, Linked(fb, false, false), rest)
      else a.sockError != -1 && Onward(w, t, h, at, rest)
    case Linked(fb, ssl, gss) =>
      var next := Asking(at, p, a.haveCred);
      a.good && (w.gssencmode == GssRequire && !gss ==> next.GssAsked?) && Later(w, t, h, at, next, rest)
    case GssAsked(fb, begun) =>
      if begun then GssShake(w, t, h, at, p, a, rest)
      else if a.read == 0 then Later(w, t, h, at, p, rest)
      else
        && a.read > 0 && a.byte != Garbage
        && (a.byte == NoByte ==> Later(w, t, h, at, p, rest))
        && (a.byte == Accept ==> GssShake(w, t, h, at, p, a, rest))
        && (a.byte == ErrorByte ==> Dial(w, t, h, at, fb.(tryGss := false), rest))
        && (a.byte == Refuse ==>
              w.gssencmode != GssRequire && Later(w, t, h, at, Linked(fb.(tryGss := false), false, false), rest))
    case SslAsked(fb, up) =>
      if up then SslShake(w, t, h, at, p, a, rest)
      else if a.read == 0 then Later(w, t, h, at, p, rest)
      else
        && a.read > 0 && a.byte != Garbage
        && (a.byte == NoByte ==> Later(w, t, h, at, p, rest))
        && (a.byte == Accept ==> a.good && SslShake(w, t, h, at, p, a, rest))
        && (a.byte == ErrorByte ==> Now(w, t, h, at, Talking(fb, false, false, true), rest))
        && (a.byte == Refuse ==>
              w.sslmode != SslRequire && Later(w, t, h, at, Linked(fb.(allowSslTry := false), false, false), rest))
    case Talking(fb, ssl, gss, unread) =>
      if a.message == Incomplete || (unread && a.message.Request?) then Later(w, t, h, at, p, rest)
      else a.good && if a.message == Error(true) then Seek(w, t, h, at.i + 1, rest)
                     else if a.message == Error(false) then
                       Retry(w, p).Again? && Dial(w, t, h, at, Retry(w, p).fb, rest)
                     else a.message.Request? && a.message.handled
                          && Now(w, t, h, at, if a.message.isOk then LoggedIn(fb) else p, rest)
    case LoggedIn(fb) =>
      if a.busy then Later(w, t, h, at, p, rest)
      else if a.result == Nothing then
        Now(w, t, h, at, Known(Kind(a.reportedReadOnly, a.reportedStandby)), rest)
      else
        && a.result == Fatal(true) && fb.sendAppname && w.sendsAppname
        && Dial(w, t, h, at, fb.(sendAppname := false), rest)
    case Known(told) =>
      var kind := TargetAt(w, t, at.i);
      var k := Aged(kind, told, a.oldServer);
      var asked := if kind == ReadWrite || kind == ReadOnly then WritableAsked(k) else StandbyAsked(k);
      if Judged(kind, k) == Right then at.i == h
      else if Judged(kind, k) == Mistaken then Seek(w, t, h, at.i + 1, rest)
      else a.good && Later(w, t, h, at, asked, rest)
    case WritableAsked(k) =>
      a.good && if a.busy then Later(w, t, h, at, p, rest)
                else if a.result.Row? then
                  Now(w, t, h, at, Consuming(Kind(Told(a.result.positive), Told(a.result.positive))), rest)
                else Seek(w, t, h, at.i + 1, rest)
    case StandbyAsked(k) =>
      a.good && if a.busy then Later(w, t, h, at, p, rest)
                else if a.result.Row? then
                  Now(w, t, h, at, Consuming(k.(hotStandby := Told(a.result.positive))), rest)
                else Seek(w, t, h, at.i + 1, rest)
    case Consuming(k) =>
      a.good && if a.busy || a.result != Nothing then Later(w, t, h, at, p, rest)
                else Now(w, t, h, at, Known(k), rest)
  }

  /** What is asked for on a line: GSS, then SSL, then the startup packet. Over a Unix socket nothing is encrypted. */
  function Asking(at: Spot, p: Phase, haveCred: bool): Phase
    requires p.Linked?
  {
    var unix := at.j < |at.list| && at.list[at.j].isUnix;
    var fb := p.fb.(allowSslTry := p.fb.allowSslTry && !unix, tryGss := p.fb.tryGss && !unix && (p.gss || haveCred));
    if fb.tryGss && !p.gss then GssAsked(fb, false)
    else if fb.allowSslTry && !fb.waitSslTry && !p.ssl && !p.gss then SslAsked(fb, false)
    else Talking(fb, p.ssl, p.gss, false)
  }

  datatype Again = Never | Again(fb: Fallbacks)

  /** What is given up for another attempt after an error of the server. */
  function Retry(w: Settings, p: Phase): Again
    requires p.Talking?
  {
    if p.gss && w.gssencmode == GssPrefer then Again(p.fb.(tryGss := false))
    else if w.sslmode == SslAllow && !p.ssl && p.fb.allowSslTry && p.fb.waitSslTry then
      Again(p.fb.(waitSslTry := false))
    else if w.sslmode == SslPrefer && p.ssl && p.fb.allowSslTry && !p.fb.waitSslTry then
      Again(p.fb.(allowSslTry := false))
    else Never
  }

  predicate GssShake(w: Settings, t: Target, h: nat, at: Spot, p: Phase, a: Answer, rest: Script)
    requires p.GssAsked?
    decreases |rest.later|, |rest.now|, 4
  {
    match a.handshake
    case Done => !a.early && Later(w, t, h, at, Linked(p.fb, false, true), rest)
    case Failed => w.gssencmode == GssPrefer && Dial(w, t, h, at, p.fb.(tryGss := false), rest)
    case _ => Later(w, t, h, at, p.(begun := true), rest)
  }

  predicate SslShake(w: Settings, t: Target, h: nat, at: Spot, p: Phase, a: Answer, rest: Script)
    requires p.SslAsked?
    decreases |rest.later|, |rest.now|, 4
  {
    match a.handshake
    case Done => !a.early && Later(w, t, h, at, Linked(p.fb, true, false), rest)
    case Failed =>
      && w.sslmode == SslPrefer && p.fb.allowSslTry && !p.fb.waitSslTry
      && Dial(w, t, h, at, p.fb.(allowSslTry := false), rest)
    case _ => Later(w, t, h, at, p.(up := true), rest)
  }

  // ------------------------------------------------------------ and they do lead there

  /** What becomes of the running call and the rounds after it. */
  function Ends(w: Settings, c: Conn, needNew: bool, s: Script): Polled {
    var p := PollLoop(w, c, s.now, needNew);
    if !p.finished then p else CompleteOf(w, p.c, s.later, s.timed, p.r)
  }

  /** The connection came about, at the h-th try. */
  predicate Won(w: Settings, t: Target, h: nat, p: Polled) {
    p.finished && p.r == Done && p.c.status == OK && AtTry(w, t, p.c.at, h)
  }

  predicate AtTry(w: Settings, t: Target, at: Place, i: nat) {
    at.whichhost == HostOf(w, i) && at.target == TargetAt(w, t, i) && Exists(w, t, i)
  }

  /** The place from which the next host is the i-th try. */
  predicate JustBefore(w: Settings, t: Target, at: Place, i: nat) {
    && at.tryNextHost && !at.tryNextAddr && t != PreferStandbyPass2
    && if i == 0 then at.whichhost == -1 && at.target == t else AtTry(w, t, at, i - 1)
  }

  predicate Stands(w: Settings, t: Target, c: Conn, at: Spot) {
    && !c.at.tryNextAddr && !c.at.tryNextHost && AtTry(w, t, c.at, at.i) && t != PreferStandbyPass2
    && c.at.addrs == at.list && c.at.addrCur == at.j < |at.list|
  }

  predicate LinkIs(c: Conn, ssl: bool, gctx: bool, gssenc: bool, unread: bool) {
    c.link.sslInUse == ssl && c.link.gctx == gctx && c.link.gssenc == gssenc && c.link.unreadError == unread
  }

  /** The connection is in this phase. */
  predicate Fits(c: Conn, at: Spot, p: Phase) {
    && at.j < |at.list| && c.link.overUnix == at.list[at.j].isUnix
    && match p
       case Dialed(fb) => c.status == STARTED && c.fb == fb && LinkIs(c, false, false, false, false)
       case Linked(fb, ssl, gss) =>
         c.status == MADE && c.fb == fb && LinkIs(c, ssl, gss, gss, false) && (ssl ==> !fb.tryGss)
       case GssAsked(fb, begun) =>
         c.status == GSS_STARTUP && c.fb == fb && fb.tryGss && LinkIs(c, false, begun, false, false)
       case SslAsked(fb, up) =>
         c.status == SSL_STARTUP && c.fb == fb && LinkIs(c, up, false, false, false) && !fb.tryGss
       case Talking(fb, ssl, gss, unread) =>
         c.status == AWAITING_RESPONSE && c.fb == fb && LinkIs(c, ssl, gss, gss, unread)
       case LoggedIn(fb) => c.status == AUTH_OK && c.fb == fb
       case Known(k) => c.status == CHECK_TARGET && c.kind == k
       case WritableAsked(k) => c.status == CHECK_WRITABLE && c.kind == k
       case StandbyAsked(k) => c.status == CHECK_STANDBY && c.kind == k
       case Consuming(k) => c.status == CONSUME && c.kind == k
  }

  /** A place is that of one try only. */
  lemma TryIsOne(w: Settings, t: Target, at: Place, i: nat, h: nat)
    requires t != PreferStandbyPass2 && AtTry(w, t, at, i) && AtTry(w, t, at, h)
    ensures i == h
  {
  }

  lemma Errored(w: Settings, t: Target, h: nat, c: Conn, needNew: bool, s: Script)
    requires s.now != [] ==> TurnOf(w, c, s.now[0], needNew).next == ErrorReturn
    ensures !Won(w, t, h, Ends(w, c, needNew, s))
  {
    hide TurnOf, AtTry;
  }

  lemma KeptGoing(w: Settings, c: Conn, needNew: bool, s: Script, d: Conn)
    requires s.now != [] && TurnOf(w, c, s.now[0], needNew) == Turned(d, KeepGoing, false)
    ensures Ends(w, c, needNew, s) == Ends(w, d, false, Rest(s))
  {
    hide TurnOf, CompleteOf;
  }

  lemma Returned(w: Settings, c: Conn, needNew: bool, s: Script, d: Conn, r: Polling)
    requires s.now != [] && TurnOf(w, c, s.now[0], needNew) == Turned(d, Return(r), false)
    ensures Ends(w, c, needNew, s) == CompleteOf(w, d, s.later, s.timed, r)
  {
    hide TurnOf, CompleteOf;
  }

  lemma AskedAgain(w: Settings, c: Conn, s: Script, d: Conn)
    requires s.now != [] && TurnOf(w, c, s.now[0], false) == Turned(d, NewConnection, false)
    ensures Ends(w, c, false, s) == Ends(w, d, true, Rest(s))
  {
    hide TurnOf, CompleteOf;
  }

  /** With no address or host to move to, a turn is a turn of the switch. */
  lemma TurnIsSwitch(w: Settings, c: Conn, a: Answer)
    requires !c.at.tryNextAddr && !c.at.tryNextHost
    ensures var m := Switched(w, c, a); TurnOf(w, c, a, false) == Turned(m.c, m.next, false)
  {
    hide Switched;
  }

  lemma TurnAtStatus(w: Settings, c: Conn, a: Answer)
    ensures c.status == NEEDED ==> Switched(w, c, a) == NeededOf(w, c, a.sock)
    ensures c.status == STARTED ==> Switched(w, c, a) == StartedOf(c, a)
    ensures c.status == MADE ==> Switched(w, c, a) == MadeOf(w, c, a)
    ensures c.status == SSL_STARTUP ==> Switched(w, c, a) == SslStartupOf(w, c, a)
    ensures c.status == GSS_STARTUP ==> Switched(w, c, a) == GssStartupOf(w, c, a)
    ensures c.status == AWAITING_RESPONSE ==> Switched(w, c, a) == ResponseOf(w, c, a)
    ensures c.status == AUTH_OK ==> Switched(w, c, a) == AuthOkOf(w, c, a)
    ensures c.status == CHECK_TARGET ==> Switched(w, c, a) == CheckTargetOf(c, a)
    ensures c.status == CONSUME ==> Switched(w, c, a) == ConsumeOf(c, a)
    ensures c.status == CHECK_WRITABLE ==> Switched(w, c, a) == CheckWritableOf(c, a)
    ensures c.status == CHECK_STANDBY ==> Switched(w, c, a) == CheckStandbyOf(c, a)
  {
    hide NeededOf, StartedOf, MadeOf, SslStartupOf, GssStartupOf, ResponseOf, AuthOkOf, CheckTargetOf, ConsumeOf,
         CheckWritableOf, CheckStandbyOf;
  }

  /** Moving on to the i-th try, if there is one. */
  lemma NextTry(w: Settings, t: Target, at: Place, i: nat, resolve: Resolve)
    requires JustBefore(w, t, at, i)
    ensures var s := HostAfter(w, at, resolve);
            if !Exists(w, t, i) then s.next == ErrorReturn
            else
              && AtTry(w, t, s.at, i)
              && match resolve
                 case PortFatal => s.next == ErrorReturn
                 case Unusable => s.next == KeepGoing && JustBefore(w, t, s.at, i + 1)
                 case Addrs(list) =>
                   if list == [] then s.next == KeepGoing && JustBefore(w, t, s.at, i + 1)
                   else s.next == NewConnection && !s.at.tryNextAddr && !s.at.tryNextHost && s.at.addrs == list
                        && s.at.addrCur == 0 && t != PreferStandbyPass2
  {
  }

  lemma {:induction false} SeekWins(w: Settings, t: Target, h: nat, i: nat, s: Script, c: Conn)
    requires JustBefore(w, t, c.at, i)
    ensures Won(w, t, h, Ends(w, c, false, s)) <==> Seek(w, t, h, i, s)
    decreases |s.later|, |s.now|, 1
  {
    hide Dial, Ends, Switched, Won, HostAfter, AtTry, FreshFallbacks, NeededOf, Exists;
    if s.now == [] {
      Errored(w, t, h, c, false, s);
    } else {
      var a := s.now[0];
      NextTry(w, t, c.at, i, a.resolve);
      SeekTurn(w, c, a);
      var m := HostAfter(w, c.at, a.resolve);
      if m.next == ErrorReturn {
        Errored(w, t, h, c, false, s);
      } else if m.next == KeepGoing {
        KeptGoing(w, c, false, s, c.(at := m.at));
        SeekWins(w, t, h, i + 1, Rest(s), c.(at := m.at));
      } else {
        TurnAtStatus(w, Begun(w, c, m.at), a);
        DialWins(w, t, h, Spot(i, a.resolve.list, 0), FreshFallbacks(w), s, c, false, Begun(w, c, m.at));
      }
    }
  }

  /** A connection that starts over at a place. */
  function Begun(w: Settings, c: Conn, at: Place): Conn {
    Dropped(c.(at := at, fb := FreshFallbacks(w)))
  }

  /** The turn in which a host is looked up. */
  lemma SeekTurn(w: Settings, c: Conn, a: Answer)
    requires c.at.tryNextHost && !c.at.tryNextAddr
    ensures var m := HostAfter(w, c.at, a.resolve);
            TurnOf(w, c, a, false) ==
            if m.next == NewConnection then
              var s := Switched(w, Begun(w, c, m.at), a); Turned(s.c, s.next, false)
            else Turned(c.(at := m.at), m.next, false)
  {
    hide HostAfter, Switched;
  }

  /** `c` is about to have the turn in which `d`, the connection started over, opens its socket. */
  predicate Opens(w: Settings, c: Conn, needNew: bool, d: Conn, a: Answer) {
    var m := NeededOf(w, d, a.sock); TurnOf(w, c, a, needNew) == Turned(m.c, m.next, false)
  }

  /** Nothing is left of an earlier socket. */
  predicate Clean(d: Conn, fb: Fallbacks) {
    d.status == NEEDED && d.fb == fb && LinkIs(d, false, false, false, false)
  }

  lemma {:induction false} DialWins(w: Settings, t: Target, h: nat, at: Spot, fb: Fallbacks, s: Script, c: Conn,
                                    needNew: bool, d: Conn)
    requires (s.now != [] ==> Opens(w, c, needNew, d, s.now[0])) && Stands(w, t, d, at) && Clean(d, fb)
    ensures Won(w, t, h, Ends(w, c, needNew, s)) <==> Dial(w, t, h, at, fb, s)
    decreases |s.later|, |s.now|, 0
  {
    hide Ends, Won, TurnOf, CompleteOf, Later, Now, Onward, AtTry, LastHost;
    if s.now == [] {
      Errored(w, t, h, c, needNew, s);
    } else {
      var m := NeededOf(w, d, s.now[0].sock);
      LastHostIs(w, t, d, at);
      if m.next == ErrorReturn {
        Errored(w, t, h, c, needNew, s);
      } else if m.next == Return(Writing) {
        Returned(w, c, needNew, s, m.c, Writing);
        LaterWins(w, t, h, at, Dialed(fb), Rest(s), m.c, Writing);
      } else if m.c.status == STARTED {
        KeptGoing(w, c, needNew, s, m.c);
        NowWins(w, t, h, at, Dialed(fb), Rest(s), m.c);
      } else {
        KeptGoing(w, c, needNew, s, m.c);
        OnwardWins(w, t, h, at, Rest(s), m.c);
      }
    }
  }

  /** A new socket to the same address, after something was given up for it. */
  lemma RedialWins(w: Settings, t: Target, h: nat, at: Spot, fb: Fallbacks, s: Script, c: Conn, m: Moved)
    requires s.now != [] && TurnOf(w, c, s.now[0], false) == Turned(m.c, m.next, false) && m.next == NewConnection
    requires Stands(w, t, m.c, at) && m.c.fb == fb
    ensures Won(w, t, h, Ends(w, c, false, s)) <==> Dial(w, t, h, at, fb, Rest(s))
    decreases |s.later|, |s.now|, 0, 0
  {
    hide Ends, Won, NeededOf, AtTry, Switched, Dial;
    var rest := Rest(s);
    AskedAgain(w, c, s, m.c);
    var d := Dropped(m.c);
    if rest.now != [] {
      TurnAtStatus(w, d, rest.now[0]);
    }
    DialWins(w, t, h, at, fb, rest, m.c, true, d);
  }

  lemma LastHostIs(w: Settings, t: Target, c: Conn, at: Spot)
    requires Stands(w, t, c, at)
    ensures LastHost(w, at.i) <==> c.at.whichhost + 1 == w.nconnhost
  {
  }

  /** The present address has come to nothing. */
  predicate GivenUp(w: Settings, t: Target, c: Conn, at: Spot) {
    c.at.tryNextAddr && Stands(w, t, c.(at := c.at.(tryNextAddr := false)), at)
  }

  lemma {:induction false} OnwardWins(w: Settings, t: Target, h: nat, at: Spot, s: Script, c: Conn)
    requires GivenUp(w, t, c, at)
    ensures Won(w, t, h, Ends(w, c, false, s)) <==> Onward(w, t, h, at, s)
    decreases |s.later|, |s.now|, 2
  {
    hide Ends, Won, TurnOf, Dial, Seek, AtTry, FreshFallbacks;
    if s.now == [] {
      Errored(w, t, h, c, false, s);
      NothingLeads(w, t, h, at, s);
    } else if at.j + 1 < |at.list| {
      var next := c.at.(addrCur := c.at.addrCur + 1, tryNextAddr := false);
      AddressTurn(w, t, c, at, s);
      DialWins(w, t, h, at.(j := at.j + 1), FreshFallbacks(w), s, c, false, Begun(w, c, next));
    } else {
      NoAddressLeft(w, t, c, at, s);
      SeekWins(w, t, h, at.i + 1, s, c.(at := c.at.(tryNextAddr := false, tryNextHost := true)));
    }
  }

  lemma NothingLeads(w: Settings, t: Target, h: nat, at: Spot, s: Script)
    requires s.now == []
    ensures !Onward(w, t, h, at, s)
  {
  }

  lemma AddressTurn(w: Settings, t: Target, c: Conn, at: Spot, s: Script)
    requires GivenUp(w, t, c, at) && at.j + 1 < |at.list| && s.now != []
    ensures var d := Begun(w, c, c.at.(addrCur := c.at.addrCur + 1, tryNextAddr := false));
            && Opens(w, c, false, d, s.now[0]) && Stands(w, t, d, at.(j := at.j + 1))
            && Clean(d, FreshFallbacks(w))
  {
    hide NeededOf, AtTry;
    var next := c.at.(addrCur := c.at.addrCur + 1, tryNextAddr := false);
    AtTryKept(w, t, c.at, next, at.i);
  }

  /** Without another address the next host is looked up in the same turn. */
  lemma NoAddressLeft(w: Settings, t: Target, c: Conn, at: Spot, s: Script)
    requires GivenUp(w, t, c, at) && at.j + 1 >= |at.list| && s.now != []
    ensures var d := c.(at := c.at.(tryNextAddr := false, tryNextHost := true));
            JustBefore(w, t, d.at, at.i + 1) && Ends(w, c, false, s) == Ends(w, d, false, s)
  {
    hide Switched, CompleteOf, HostAfter, AtTry;
    var d := c.(at := c.at.(tryNextAddr := false, tryNextHost := true));
    assert TurnOf(w, c, s.now[0], false) == TurnOf(w, d, s.now[0], false);
    AtTryKept(w, t, c.at, d.at, at.i);
  }

  lemma AtTryKept(w: Settings, t: Target, a: Place, b: Place, i: nat)
    requires AtTry(w, t, a.(tryNextAddr := false), i) && b.whichhost == a.whichhost && b.target == a.target
    ensures AtTry(w, t, b, i)
  {
  }

  lemma {:induction false} LaterWins(w: Settings, t: Target, h: nat, at: Spot, p: Phase, s: Script, c: Conn,
                                     flag: Polling)
    requires Stands(w, t, c, at) && Fits(c, at, p) && (flag == Reading || flag == Writing)
    ensures Won(w, t, h, CompleteOf(w, c, s.later, s.timed, flag)) <==> Later(w, t, h, at, p, s)
    decreases |s.later|, |s.now|, 3
  {
    hide Now, Won, Stands, Fits, PollLoop, Onward, GivenUp, Later, CompleteOf;
    FitsLoads(c, at, p);
    if s.later == [] || s.later[0].wait == HardFailure {
      Breaks(w, t, h, at, p, s, c, flag);
    } else {
      var next := Script(s.later[0].answers, s.later[1..], s.timed);
      if s.timed && s.later[0].wait == TimedOut {
        TimedGivesUp(w, t, c, at);
        TimedRound(w, t, h, at, p, s, c, flag);
        OnwardWins(w, t, h, at, next, Timed(c));
      } else if next.now == [] || (LoadsFirst(p) && next.now[0].read < 0) {
        DryRound(w, t, h, at, p, s, c, flag);
      } else if LoadsFirst(p) && next.now[0].read == 0 {
        EmptyRound(w, t, h, at, p, s, c, flag);
        LaterWins(w, t, h, at, p, next.(now := []), c, Reading);
      } else {
        Round(w, t, h, at, p, s, c, flag);
        NowWins(w, t, h, at, p, next, c);
      }
    }
  }

  lemma Breaks(w: Settings, t: Target, h: nat, at: Spot, p: Phase, s: Script, c: Conn, flag: Polling)
    requires (flag == Reading || flag == Writing) && (s.later == [] || s.later[0].wait == HardFailure)
    ensures !Won(w, t, h, CompleteOf(w, c, s.later, s.timed, flag)) && !Later(w, t, h, at, p, s)
  {
    hide Now, AtTry, Onward;
  }

  /** A round after a timeout. */
  lemma TimedRound(w: Settings, t: Target, h: nat, at: Spot, p: Phase, s: Script, c: Conn, flag: Polling)
    requires (flag == Reading || flag == Writing) && s.later != [] && s.timed && s.later[0].wait == TimedOut
    ensures var next := Script(s.later[0].answers, s.later[1..], s.timed);
            && (Later(w, t, h, at, p, s) <==> next.now != [] && Onward(w, t, h, at, next))
            && CompleteOf(w, c, s.later, s.timed, flag) == Ends(w, Timed(c), false, next)
            && (next.now == [] ==> !Onward(w, t, h, at, next))
  {
    hide Now, PollLoop, Seek, Dial;
    var next := Script(s.later[0].answers, s.later[1..], s.timed);
    if next.now == [] {
      NothingLeads(w, t, h, at, next);
      NothingPolled(w, Timed(c));
    }
  }

  lemma NothingPolled(w: Settings, c: Conn)
    ensures PollLoop(w, c, [], false) == Polled(c, Reading, false)
  {
  }

  /** A round in which nothing is there, or reading fails. */
  lemma DryRound(w: Settings, t: Target, h: nat, at: Spot, p: Phase, s: Script, c: Conn, flag: Polling)
    requires (flag == Reading || flag == Writing) && s.later != [] && s.later[0].wait != HardFailure
    requires !(s.timed && s.later[0].wait == TimedOut) && Loads(c.status) == LoadsFirst(p)
    requires c.status != OK && c.status != BAD
    requires s.later[0].answers == [] || (LoadsFirst(p) && s.later[0].answers[0].read < 0)
    ensures !Won(w, t, h, CompleteOf(w, c, s.later, s.timed, flag)) && !Later(w, t, h, at, p, s)
  {
    hide Now, AtTry, Onward, PollLoop, Loads, LoadsFirst;
  }

  lemma EmptyRound(w: Settings, t: Target, h: nat, at: Spot, p: Phase, s: Script, c: Conn, flag: Polling)
    requires (flag == Reading || flag == Writing) && s.later != [] && s.later[0].wait != HardFailure
    requires !(s.timed && s.later[0].wait == TimedOut) && Loads(c.status) == LoadsFirst(p)
    requires c.status != OK && c.status != BAD
    requires s.later[0].answers != [] && LoadsFirst(p) && s.later[0].answers[0].read == 0
    ensures CompleteOf(w, c, s.later, s.timed, flag) == CompleteOf(w, c, s.later[1..], s.timed, Reading)
    ensures Later(w, t, h, at, p, s) <==> Later(w, t, h, at, p, Script([], s.later[1..], s.timed))
  {
    hide Now, Onward, PollLoop, Loads, LoadsFirst;
  }

  lemma Round(w: Settings, t: Target, h: nat, at: Spot, p: Phase, s: Script, c: Conn, flag: Polling)
    requires (flag == Reading || flag == Writing) && s.later != [] && s.later[0].wait != HardFailure
    requires !(s.timed && s.later[0].wait == TimedOut) && Loads(c.status) == LoadsFirst(p)
    requires c.status != OK && c.status != BAD
    requires s.later[0].answers != [] && (LoadsFirst(p) ==> s.later[0].answers[0].read > 0)
    ensures var next := Script(s.later[0].answers, s.later[1..], s.timed);
            && CompleteOf(w, c, s.later, s.timed, flag) == Ends(w, c, false, next)
            && (Later(w, t, h, at, p, s) <==> Now(w, t, h, at, p, next))
  {
    hide Now, Onward, PollLoop, Loads, LoadsFirst;
  }

  lemma TimedGivesUp(w: Settings, t: Target, c: Conn, at: Spot)
    requires Stands(w, t, c, at)
    ensures GivenUp(w, t, Timed(c), at) && Timed(c).status == NEEDED
  {
    hide AtTry;
    assert c.at.(tryNextAddr := true).(tryNextAddr := false) == c.at;
  }

  lemma FitsLoads(c: Conn, at: Spot, p: Phase)
    requires Fits(c, at, p)
    ensures Loads(c.status) == LoadsFirst(p) && c.status != OK && c.status != BAD
  {
  }

  /** The turn kept the call going, in another phase of the same attempt. */
  lemma OnNow(w: Settings, t: Target, h: nat, at: Spot, p: Phase, s: Script, c: Conn, m: Moved)
    requires s.now != [] && TurnOf(w, c, s.now[0], false) == Turned(m.c, m.next, false) && m.next == KeepGoing
    requires Stands(w, t, m.c, at) && Fits(m.c, at, p)
    ensures Won(w, t, h, Ends(w, c, false, s)) <==> Now(w, t, h, at, p, Rest(s))
    decreases |s.later|, |s.now|, 0, 0
  {
    hide Now, Won, Stands, Fits, Ends, TurnOf;
    KeptGoing(w, c, false, s, m.c);
    NowWins(w, t, h, at, p, Rest(s), m.c);
  }

  lemma OnLater(w: Settings, t: Target, h: nat, at: Spot, p: Phase, s: Script, c: Conn, m: Moved)
    requires s.now != [] && TurnOf(w, c, s.now[0], false) == Turned(m.c, m.next, false)
    requires m.next == Return(Reading) || m.next == Return(Writing)
    requires Stands(w, t, m.c, at) && Fits(m.c, at, p)
    ensures Won(w, t, h, Ends(w, c, false, s)) <==> Later(w, t, h, at, p, Rest(s))
    decreases |s.later|, |s.now|, 0, 0
  {
    hide Later, Won, Stands, Fits, Ends, TurnOf, CompleteOf;
    Returned(w, c, false, s, m.c, m.next.r);
    LaterWins(w, t, h, at, p, Rest(s), m.c, m.next.r);
  }

  /** The turn gave the host up. */
  lemma OnSeek(w: Settings, t: Target, h: nat, at: Spot, s: Script, c: Conn, m: Moved)
    requires s.now != [] && TurnOf(w, c, s.now[0], false) == Turned(m.c, m.next, false) && m.next == KeepGoing
    requires JustBefore(w, t, m.c.at, at.i + 1)
    ensures Won(w, t, h, Ends(w, c, false, s)) <==> Seek(w, t, h, at.i + 1, Rest(s))
    decreases |s.later|, |s.now|, 0, 0
  {
    hide Seek, Won, Ends, TurnOf, JustBefore;
    KeptGoing(w, c, false, s, m.c);
    SeekWins(w, t, h, at.i + 1, Rest(s), m.c);
  }

  lemma LeavesHost(w: Settings, t: Target, c: Conn, at: Spot, d: Conn)
    requires Stands(w, t, c, at) && d.at == c.at.(tryNextHost := true)
    ensures JustBefore(w, t, d.at, at.i + 1)
  {
  }

  lemma NowWins(w: Settings, t: Target, h: nat, at: Spot, p: Phase, s: Script, c: Conn)
    requires Stands(w, t, c, at) && Fits(c, at, p)
    ensures Won(w, t, h, Ends(w, c, false, s)) <==> Now(w, t, h, at, p, s)
    decreases |s.later|, |s.now|, 0, 3
  {
    hide Now, Fits, Won, Ends, Stands;
    if s.now == [] {
      Errored(w, t, h, c, false, s);
      NothingNow(w, t, h, at, p, s);
    } else {
      match p {
        case Dialed(_) => DialedWins(w, t, h, at, p, s, c);
        case Linked(_, _, _) => LinkedWins(w, t, h, at, p, s, c);
        case GssAsked(_, _) => GssWins(w, t, h, at, p, s, c);
        case SslAsked(_, _) => SslWins(w, t, h, at, p, s, c);
        case Talking(_, _, _, _) => TalkingWins(w, t, h, at, p, s, c);
        case LoggedIn(_) => LoggedInWins(w, t, h, at, p, s, c);
        case Known(_) => KnownWins(w, t, h, at, p, s, c);
        case WritableAsked(_) => WritableWins(w, t, h, at, p, s, c);
        case StandbyAsked(_) => StandbyWins(w, t, h, at, p, s, c);
        case Consuming(_) => ConsumingWins(w, t, h, at, p, s, c);
      }
    }
  }

  lemma NothingNow(w: Settings, t: Target, h: nat, at: Spot, p: Phase, s: Script)
    requires s.now == []
    ensures !Now(w, t, h, at, p, s)
  {
  }

  lemma DialedWins(w: Settings, t: Target, h: nat, at: Spot, p: Phase, s: Script, c: Conn)
    requires p.Dialed? && s.now != [] && Stands(w, t, c, at) && Fits(c, at, p)
    ensures Won(w, t, h, Ends(w, c, false, s)) <==> Now(w, t, h, at, p, s)
    decreases |s.later|, |s.now|, 0, 2
  {
    hide Won, Ends, TurnOf, Later, Onward, AtTry, Switched;
    var a := s.now[0];
    TurnIsSwitch(w, c, a);
    TurnAtStatus(w, c, a);
    var m := Switched(w, c, a);
    if m.next == ErrorReturn {
      Errored(w, t, h, c, false, s);
    } else if a.sockError == 0 {
      OnLater(w, t, h, at, Linked(p.fb, false, false), s, c, m);
    } else {
      KeptGoing(w, c, false, s, m.c);
      OnwardWins(w, t, h, at, Rest(s), m.c);
    }
  }

  lemma LinkedWins(w: Settings, t: Target, h: nat, at: Spot, p: Phase, s: Script, c: Conn)
    requires p.Linked? && s.now != [] && Stands(w, t, c, at) && Fits(c, at, p)
    ensures Won(w, t, h, Ends(w, c, false, s)) <==> Now(w, t, h, at, p, s)
    decreases |s.later|, |s.now|, 0, 2
  {
    hide Won, Ends, TurnOf, Later, Seek, Dial, AtTry, Switched, JustBefore;
    var a := s.now[0];
    TurnIsSwitch(w, c, a);
    TurnAtStatus(w, c, a);
    var m := Switched(w, c, a);
    if m.next == ErrorReturn {
      Errored(w, t, h, c, false, s);
    } else {
      OnLater(w, t, h, at, Asking(at, p, a.haveCred), s, c, m);
    }
  }

  lemma GssWins(w: Settings, t: Target, h: nat, at: Spot, p: Phase, s: Script, c: Conn)
    requires p.GssAsked? && s.now != [] && Stands(w, t, c, at) && Fits(c, at, p)
    ensures Won(w, t, h, Ends(w, c, false, s)) <==> Now(w, t, h, at, p, s)
    decreases |s.later|, |s.now|, 0, 2
  {
    hide Won, Ends, TurnOf, Later, Dial, AtTry, Switched, GssShake, GssHandshakeOf;
    var a := s.now[0];
    TurnIsSwitch(w, c, a);
    TurnAtStatus(w, c, a);
    var m := Switched(w, c, a);
    if p.begun || (a.read > 0 && a.byte == Accept) {
      GssShakeWins(w, t, h, at, p, s, c, m);
    } else if a.read == 0 || (a.read > 0 && a.byte == NoByte) {
      OnLater(w, t, h, at, p, s, c, m);
    } else if a.read > 0 && a.byte == ErrorByte {
      RedialWins(w, t, h, at, p.fb.(tryGss := false), s, c, m);
    } else if m.next == ErrorReturn {
      Errored(w, t, h, c, false, s);
    } else {
      OnLater(w, t, h, at, Linked(p.fb.(tryGss := false), false, false), s, c, m);
    }
  }

  lemma SslWins(w: Settings, t: Target, h: nat, at: Spot, p: Phase, s: Script, c: Conn)
    requires p.SslAsked? && s.now != [] && Stands(w, t, c, at) && Fits(c, at, p)
    ensures Won(w, t, h, Ends(w, c, false, s)) <==> Now(w, t, h, at, p, s)
    decreases |s.later|, |s.now|, 0, 2
  {
    hide Won, Ends, TurnOf, Later, Dial, AtTry, Switched, SslShake, SslHandshakeOf;
    var a := s.now[0];
    TurnIsSwitch(w, c, a);
    TurnAtStatus(w, c, a);
    var m := Switched(w, c, a);
    if p.up || (a.read > 0 && a.byte == Accept && a.good) {
      SslShakeWins(w, t, h, at, p, s, c, m);
    } else if a.read == 0 || (a.read > 0 && a.byte == NoByte) {
      OnLater(w, t, h, at, p, s, c, m);
    } else if a.read > 0 && a.byte == ErrorByte {
      OnNow(w, t, h, at, Talking(p.fb, false, false, true), s, c, m);
    } else if m.next == ErrorReturn {
      Errored(w, t, h, c, false, s);
    } else {
      OnLater(w, t, h, at, Linked(p.fb.(allowSslTry := false), false, false), s, c, m);
    }
  }

  lemma TalkingWins(w: Settings, t: Target, h: nat, at: Spot, p: Phase, s: Script, c: Conn)
    requires p.Talking? && s.now != [] && Stands(w, t, c, at) && Fits(c, at, p)
    ensures Won(w, t, h, Ends(w, c, false, s)) <==> Now(w, t, h, at, p, s)
    decreases |s.later|, |s.now|, 0, 2
  {
    hide Won, Ends, TurnOf, Later, Seek, Dial, AtTry, Switched, JustBefore, ServerErrorOf, Retry;
    var a := s.now[0];
    TurnIsSwitch(w, c, a);
    TurnAtStatus(w, c, a);
    var m := Switched(w, c, a);
    if a.message.Error? && a.good {
      ServerErrorWins(w, t, h, at, p, s, c, m);
    } else if m.next == ErrorReturn {
      Errored(w, t, h, c, false, s);
    } else if a.message == Incomplete || (p.unread && a.message.Request?) {
      OnLater(w, t, h, at, p, s, c, m);
    } else {
      OnNow(w, t, h, at, if a.message.isOk then LoggedIn(p.fb) else p, s, c, m);
    }
  }

  /** Another host, something given up for a new socket, or the end. */
  lemma ServerErrorWins(w: Settings, t: Target, h: nat, at: Spot, p: Phase, s: Script, c: Conn, m: Moved)
    requires p.Talking? && s.now != [] && Stands(w, t, c, at) && Fits(c, at, p) && s.now[0].message.Error?
    requires m == ServerErrorOf(w, c, s.now[0].message.cannotConnectNow)
    requires TurnOf(w, c, s.now[0], false) == Turned(m.c, m.next, false)
    ensures Won(w, t, h, Ends(w, c, false, s)) <==>
            if s.now[0].message.cannotConnectNow then Seek(w, t, h, at.i + 1, Rest(s))
            else Retry(w, p).Again? && Dial(w, t, h, at, Retry(w, p).fb, Rest(s))
    decreases |s.later|, |s.now|, 0, 1
  {
    hide Won, Ends, TurnOf, Seek, Dial, AtTry, JustBefore;
    if m.next == ErrorReturn {
      Errored(w, t, h, c, false, s);
    } else if s.now[0].message.cannotConnectNow {
      LeavesHost(w, t, c, at, m.c);
      OnSeek(w, t, h, at, s, c, m);
    } else {
      RedialWins(w, t, h, at, Retry(w, p).fb, s, c, m);
    }
  }

  lemma LoggedInWins(w: Settings, t: Target, h: nat, at: Spot, p: Phase, s: Script, c: Conn)
    requires p.LoggedIn? && s.now != [] && Stands(w, t, c, at) && Fits(c, at, p)
    ensures Won(w, t, h, Ends(w, c, false, s)) <==> Now(w, t, h, at, p, s)
    decreases |s.later|, |s.now|, 0, 2
  {
    hide Won, Ends, TurnOf, Later, Seek, Dial, AtTry, Switched, JustBefore;
    var a := s.now[0];
    TurnIsSwitch(w, c, a);
    TurnAtStatus(w, c, a);
    var m := Switched(w, c, a);
    if m.next == ErrorReturn {
      Errored(w, t, h, c, false, s);
    } else if a.busy {
      OnLater(w, t, h, at, p, s, c, m);
    } else if a.result == Nothing {
      OnNow(w, t, h, at, Known(Kind(a.reportedReadOnly, a.reportedStandby)), s, c, m);
    } else {
      RedialWins(w, t, h, at, p.fb.(sendAppname := false), s, c, m);
    }
  }

  lemma WritableWins(w: Settings, t: Target, h: nat, at: Spot, p: Phase, s: Script, c: Conn)
    requires p.WritableAsked? && s.now != [] && Stands(w, t, c, at) && Fits(c, at, p)
    ensures Won(w, t, h, Ends(w, c, false, s)) <==> Now(w, t, h, at, p, s)
    decreases |s.later|, |s.now|, 0, 2
  {
    hide Won, Ends, TurnOf, Later, Seek, Dial, AtTry, Switched, JustBefore;
    var a := s.now[0];
    TurnIsSwitch(w, c, a);
    TurnAtStatus(w, c, a);
    var m := Switched(w, c, a);
    if m.next == ErrorReturn {
      Errored(w, t, h, c, false, s);
    } else if a.busy {
      OnLater(w, t, h, at, p, s, c, m);
    } else if !a.result.Row? {
      LeavesHost(w, t, c, at, m.c);
      OnSeek(w, t, h, at, s, c, m);
    } else {
      OnNow(w, t, h, at, Consuming(m.c.kind), s, c, m);
    }
  }

  lemma StandbyWins(w: Settings, t: Target, h: nat, at: Spot, p: Phase, s: Script, c: Conn)
    requires p.StandbyAsked? && s.now != [] && Stands(w, t, c, at) && Fits(c, at, p)
    ensures Won(w, t, h, Ends(w, c, false, s)) <==> Now(w, t, h, at, p, s)
    decreases |s.later|, |s.now|, 0, 2
  {
    hide Won, Ends, TurnOf, Later, Seek, Dial, AtTry, Switched, JustBefore;
    var a := s.now[0];
    TurnIsSwitch(w, c, a);
    TurnAtStatus(w, c, a);
    var m := Switched(w, c, a);
    if m.next == ErrorReturn {
      Errored(w, t, h, c, false, s);
    } else if a.busy {
      OnLater(w, t, h, at, p, s, c, m);
    } else if !a.result.Row? {
      LeavesHost(w, t, c, at, m.c);
      OnSeek(w, t, h, at, s, c, m);
    } else {
      OnNow(w, t, h, at, Consuming(m.c.kind), s, c, m);
    }
  }

  lemma ConsumingWins(w: Settings, t: Target, h: nat, at: Spot, p: Phase, s: Script, c: Conn)
    requires p.Consuming? && s.now != [] && Stands(w, t, c, at) && Fits(c, at, p)
    ensures Won(w, t, h, Ends(w, c, false, s)) <==> Now(w, t, h, at, p, s)
    decreases |s.later|, |s.now|, 0, 2
  {
    hide Won, Ends, TurnOf, Later, Seek, Dial, AtTry, Switched, JustBefore;
    var a := s.now[0];
    TurnIsSwitch(w, c, a);
    TurnAtStatus(w, c, a);
    var m := Switched(w, c, a);
    if m.next == ErrorReturn {
      Errored(w, t, h, c, false, s);
    } else if a.busy || a.result != Nothing {
      OnLater(w, t, h, at, p, s, c, m);
    } else {
      OnNow(w, t, h, at, Known(p.k), s, c, m);
    }
  }

  /** What the target check comes to. */
  lemma KnownTurn(w: Settings, t: Target, at: Spot, p: Phase, c: Conn, a: Answer)
    requires p.Known? && Stands(w, t, c, at) && Fits(c, at, p)
    ensures var kind := TargetAt(w, t, at.i);
            var k, m := Aged(kind, p.k, a.oldServer), CheckTargetOf(c, a);
            && c.status == CHECK_TARGET && !c.at.tryNextAddr && !c.at.tryNextHost
            && match Judged(kind, k)
               case Right =>
                 && m.next == Return(Done) && m.c.status == OK && AtTry(w, t, m.c.at, at.i)
                 && t != PreferStandbyPass2
               case Mistaken => m.next == KeepGoing && m.c.at == c.at.(tryNextHost := true)
               case Ask =>
                 if !a.good then m.next == ErrorReturn
                 else
                   && m.next == Return(Reading) && Stands(w, t, m.c, at)
                   && Fits(m.c, at, if kind == ReadWrite || kind == ReadOnly then WritableAsked(k) else StandbyAsked(k))
  {
    hide CheckTargetOf, Judged, Aged, TargetAt;
    KindIs(w, t, c, at);
    JudgedIs(c, a);
  }

  lemma KnownWins(w: Settings, t: Target, h: nat, at: Spot, p: Phase, s: Script, c: Conn)
    requires p.Known? && s.now != [] && Stands(w, t, c, at) && Fits(c, at, p)
    ensures Won(w, t, h, Ends(w, c, false, s)) <==> Now(w, t, h, at, p, s)
    decreases |s.later|, |s.now|, 0, 2
  {
    hide Won, Ends, TurnOf, Later, Seek, Stands, Fits, Switched, CheckTargetOf, Judged, Aged, TargetAt, JustBefore,
         AtTry;
    var a := s.now[0];
    var m := CheckTargetOf(c, a);
    var kind := TargetAt(w, t, at.i);
    var k := Aged(kind, p.k, a.oldServer);
    KnownTurn(w, t, at, p, c, a);
    TurnIsSwitch(w, c, a);
    TurnAtStatus(w, c, a);
    if Judged(kind, k) == Right {
      OpensHere(w, t, h, at, s, c, m);
    } else if Judged(kind, k) == Mistaken {
      LeavesHost(w, t, c, at, m.c);
      OnSeek(w, t, h, at, s, c, m);
    } else if m.next == ErrorReturn {
      Errored(w, t, h, c, false, s);
    } else {
      var asked := if kind == ReadWrite || kind == ReadOnly then WritableAsked(k) else StandbyAsked(k);
      OnLater(w, t, h, at, asked, s, c, m);
    }
  }

  lemma KindIs(w: Settings, t: Target, c: Conn, at: Spot)
    requires Stands(w, t, c, at)
    ensures c.at.target == TargetAt(w, t, at.i) && c.at.whichhost == HostOf(w, at.i)
  {
  }

  /** The target check does as its verdict says. */
  lemma JudgedIs(c: Conn, a: Answer)
    ensures var k := Aged(c.at.target, c.kind, a.oldServer);
            var d := c.(kind := k);
            CheckTargetOf(c, a) ==
            match Judged(c.at.target, k)
            case Right => Open(d)
            case Mistaken => Wrong(d)
            case Ask =>
              if !a.good then Moved(d, ErrorReturn)
              else Moved(d.(status := if c.at.target == ReadWrite || c.at.target == ReadOnly then CHECK_WRITABLE
                                      else CHECK_STANDBY), Return(Reading))
  {
  }

  lemma OpensHere(w: Settings, t: Target, h: nat, at: Spot, s: Script, c: Conn, m: Moved)
    requires s.now != [] && TurnOf(w, c, s.now[0], false) == Turned(m.c, m.next, false) && m.next == Return(Done)
    requires m.c.status == OK && AtTry(w, t, m.c.at, at.i) && t != PreferStandbyPass2
    ensures Won(w, t, h, Ends(w, c, false, s)) <==> at.i == h
  {
    hide TurnOf, AtTry;
    if AtTry(w, t, m.c.at, h) {
      TryIsOne(w, t, m.c.at, at.i, h);
    }
  }

  lemma GssShakeWins(w: Settings, t: Target, h: nat, at: Spot, p: Phase, s: Script, c: Conn, m: Moved)
    requires s.now != [] && p.GssAsked? && Stands(w, t, c, at) && Fits(c, at, p)
    requires m == GssHandshakeOf(w, c, s.now[0].handshake, s.now[0].early)
    requires TurnOf(w, c, s.now[0], false) == Turned(m.c, m.next, false)
    ensures Won(w, t, h, Ends(w, c, false, s)) <==> GssShake(w, t, h, at, p, s.now[0], Rest(s))
    decreases |s.later|, |s.now|, 0, 1
  {
    hide Won, Ends, TurnOf, Later, Dial, AtTry;
    if m.next == ErrorReturn {
      Errored(w, t, h, c, false, s);
    } else if s.now[0].handshake == Done {
      OnLater(w, t, h, at, Linked(p.fb, false, true), s, c, m);
    } else if s.now[0].handshake == Failed {
      RedialWins(w, t, h, at, p.fb.(tryGss := false), s, c, m);
    } else {
      OnLater(w, t, h, at, p.(begun := true), s, c, m);
    }
  }

  lemma SslShakeWins(w: Settings, t: Target, h: nat, at: Spot, p: Phase, s: Script, c: Conn, m: Moved)
    requires s.now != [] && p.SslAsked? && Stands(w, t, c, at) && Fits(c, at, p)
    requires m == SslHandshakeOf(w, c.(link := c.link.(sslInUse := true)), s.now[0].handshake, s.now[0].early)
    requires TurnOf(w, c, s.now[0], false) == Turned(m.c, m.next, false)
    ensures Won(w, t, h, Ends(w, c, false, s)) <==> SslShake(w, t, h, at, p, s.now[0], Rest(s))
    decreases |s.later|, |s.now|, 0, 1
  {
    hide Won, Ends, TurnOf, Later, Dial, AtTry;
    if m.next == ErrorReturn {
      Errored(w, t, h, c, false, s);
    } else if s.now[0].handshake == Done {
      OnLater(w, t, h, at, Linked(p.fb, true, false), s, c, m);
    } else if s.now[0].handshake == Failed {
      RedialWins(w, t, h, at, p.fb.(allowSslTry := false), s, c, m);
    } else {
      OnLater(w, t, h, at, p.(up := true), s, c, m);
    }
  }

  /** The first call gets no further than to a socket, which is to be written to. */
  lemma {:induction false} FirstCallWrites(w: Settings, c: Conn, answers: seq<Answer>, needNew: bool)
    requires c.status == NEEDED || c.status == STARTED
    ensures var p := PollLoop(w, c, answers, needNew); p.finished ==> p.r == Writing || p.r == Failed
    decreases |answers|
  {
    hide TurnOf;
    if answers != [] {
      FirstTurns(w, c, answers[0], needNew);
      var t := TurnOf(w, c, answers[0], needNew);
      if t.next == KeepGoing {
        FirstCallWrites(w, t.c, answers[1..], t.still);
      }
    }
  }

  lemma FirstTurns(w: Settings, c: Conn, a: Answer, needNew: bool)
    requires c.status == NEEDED || c.status == STARTED
    ensures var t := TurnOf(w, c, a, needNew);
            && (t.next.Return? ==> t.next.r == Writing) && t.next != NewConnection
            && (t.next == KeepGoing ==> t.c.status == NEEDED || t.c.status == STARTED)
  {
  }

  /**
   Connect succeeds at the h-th try if and only if the script leads there: the hosts before it fail or are of
   the wrong kind, and it connects, handles every request up to the OK and is of the kind asked for.
   */
  lemma ReachedExactly(w: Settings, c: Conn, answers: seq<Answer>, events: seq<Event>, timed: bool, h: nat)
    ensures var t := Rewound(c).at.target;
            Won(w, t, h, ConnectOf(w, c, answers, events, timed)) <==> Seek(w, t, h, 0, Script(answers, events, timed))
  {
    hide PollLoop, CompleteOf, Seek, AtTry;
    var d := Rewound(c);
    SeekWins(w, d.at.target, h, 0, Script(answers, events, timed), d);
    FirstCallWrites(w, d, answers, false);
    FailedStays(w, PollLoop(w, d, answers, false).c, events, timed);
    NothingPolled(w, d);
  }

  lemma FailedStays(w: Settings, c: Conn, events: seq<Event>, timed: bool)
    ensures CompleteOf(w, c, events, timed, Failed).r == Failed
  {
  }

  // ------------------------------------------------------------ such scripts exist

  const IDLE := Answer(1, Unusable, Connected, 0, true, false, NoByte, Done, false, Incomplete, false, Nothing, No, No,
                       false)

  const DIALS := IDLE.(resolve := Addrs([Addr(false)]), sock := InProgress)

  const ASKS := IDLE.(message := Request(true, false))

  const ACCEPTS := IDLE.(message := Request(true, true))

  /** Of two hosts the first has no address, and the second asks twice before its OK. */
  lemma SecondHostReached(c: Conn)
    requires c.at.target == ReadWrite
    ensures var w := Settings(2, SslDisable, GssDisable, true);
            var p := ConnectOf(w, c, [IDLE, DIALS],
                               [Event(Ready, [IDLE]), Event(Ready, [IDLE]),
                                Event(Ready, [ASKS, ASKS, ACCEPTS, IDLE, IDLE])], false);
            p.finished && p.r == Done && p.c.status == OK && p.c.at.whichhost == 1
  {
    hide ConnectOf;
    var w, t, at := Settings(2, SslDisable, GssDisable, true), ReadWrite, Spot(1, [Addr(false)], 0);
    var last := Event(Ready, [ASKS, ASKS, ACCEPTS, IDLE, IDLE]);
    var fb := FreshFallbacks(w);
    var events := [Event(Ready, [IDLE]), Event(Ready, [IDLE]), last];
    assert events[1..] == [Event(Ready, [IDLE]), last];
    assert [Event(Ready, [IDLE]), last][1..] == [last] && [last][1..] == [];
    Talks(w, t, at, fb);
    assert Later(w, t, 1, at, Talking(fb, false, false, false), Script([], [last], false));
    assert [IDLE][1..] == [];
    assert Now(w, t, 1, at, Linked(fb, false, false), Script([IDLE], [last], false));
    assert Later(w, t, 1, at, Linked(fb, false, false), Script([], [Event(Ready, [IDLE]), last], false));
    assert Now(w, t, 1, at, Dialed(fb), Script([IDLE], [Event(Ready, [IDLE]), last], false));
    assert Later(w, t, 1, at, Dialed(fb), Script([], events, false));
    assert [DIALS][1..] == [] && [IDLE, DIALS][1..] == [DIALS];
    assert Seek(w, t, 1, 1, Script([DIALS], events, false));
    assert Seek(w, t, 1, 0, Script([IDLE, DIALS], events, false));
    ReachedExactly(w, c, [IDLE, DIALS], events, false, 1);
  }

  lemma Talks(w: Settings, t: Target, at: Spot, fb: Fallbacks)
    requires w.nconnhost == 2 && t == ReadWrite && at.i == 1
    ensures Now(w, t, 1, at, Talking(fb, false, false, false), Script([ASKS, ASKS, ACCEPTS, IDLE, IDLE], [], false))
  {
    assert [ASKS, ASKS, ACCEPTS, IDLE, IDLE][1..] == [ASKS, ACCEPTS, IDLE, IDLE];
    assert [ASKS, ACCEPTS, IDLE, IDLE][1..] == [ACCEPTS, IDLE, IDLE] && [ACCEPTS, IDLE, IDLE][1..] == [IDLE, IDLE];
    assert [IDLE, IDLE][1..] == [IDLE];
    assert Now(w, t, 1, at, Known(Kind(No, No)), Script([IDLE], [], false));
    assert Now(w, t, 1, at, LoggedIn(fb), Script([IDLE, IDLE], [], false));
    assert Now(w, t, 1, at, Talking(fb, false, false, false), Script([ACCEPTS, IDLE, IDLE], [], false));
    assert Now(w, t, 1, at, Talking(fb, false, false, false), Script([ASKS, ACCEPTS, IDLE, IDLE], [], false));
  }
}
