/**
 `PQconnectPoll` of fe-connect.c: one attempt after another over hosts, their addresses, and the
 fallbacks of each address. Everything the system, the name service and the server can answer is a
 parameter, one `Answer` for every turn of the state machine.
 */
module ConnectPoll {

  import opened ConnectMachine
  import ConnectReach

  // ------------------------------------------------------------ the budget of attempts

  /**
   A number that falls with the second pass, with hosts and with addresses, by more than the fallbacks of one
   address.
   */
  function Rank(hostsLeft: nat, maxAddrs: nat, addrsLeft: nat): nat {
    (hostsLeft * maxAddrs + addrsLeft) * 4
  }

  /** One host less makes up for any new address list. */
  lemma RankNextHost(h: nat, h': nat, maxAddrs: nat, a: nat, a': nat)
    requires h' < h && a' < maxAddrs
    ensures Rank(h', maxAddrs, a') + 4 <= Rank(h, maxAddrs, a)
  {
    assert h * maxAddrs == (h - 1) * maxAddrs + maxAddrs;
    Multiply(h', h - 1, maxAddrs);
  }

  lemma Multiply(a: nat, b: nat, c: nat)
    requires a <= b
    ensures a * c <= b * c
  {
  }

  lemma RankNextAddr(h: nat, maxAddrs: nat, a: nat)
    requires a > 0
    ensures Rank(h, maxAddrs, a - 1) + 4 == Rank(h, maxAddrs, a)
  {
  }

  lemma RankHostLost(h: nat, h': nat, maxAddrs: nat, a: nat)
    requires h' <= h
    ensures Rank(h', maxAddrs, 0) <= Rank(h, maxAddrs, a)
  {
    Multiply(h', h, maxAddrs);
  }

  lemma MostIsRank(hosts: nat, maxAddrs: nat)
    ensures Rank(hosts, maxAddrs, 0) == hosts * maxAddrs * 4
  {
  }

  function Flag(b: bool): nat {
    if b then 1 else 0
  }

  class PGconn {
    const nconnhost: nat
    const sslmode: SslMode
    const gssencmode: GssMode
    const sendsAppname: bool
    /** No address list is longer. */
    ghost const maxAddrs: nat

    var status: Status
    var whichhost: int
    var addrs: seq<Addr>
    var addrCur: nat
    var tryNextAddr: bool
    var tryNextHost: bool
    var target: Target
    var sendAppname: bool
    var allowSslTry: bool
    var waitSslTry: bool
    var tryGss: bool
    var sslInUse: bool
    var gctx: bool
    var gssenc: bool
    var overUnix: bool
    /** The server answered the SSL request with an 'E' that is still unread. */
    var unreadError: bool
    var readOnly: Tri
    var hotStandby: Tri

    /** Calls of `socket()` so far. */
    ghost var sockets: nat
    /** The socket of the present address and fallbacks was already asked for. */
    ghost var spent: bool
    ghost var budget: nat
    /** How often the standby requirement was dropped and the hosts were started over. */
    ghost var secondPasses: nat

    ghost function Brings(): Settings {
      Settings(nconnhost, sslmode, gssencmode, sendsAppname)
    }

    ghost function Here(): Place
      reads this
    {
      Place(whichhost, addrs, addrCur, tryNextAddr, tryNextHost, target)
    }

    ghost function StillToTry(): Fallbacks
      reads this
    {
      Fallbacks(sendAppname, allowSslTry, waitSslTry, tryGss)
    }

    ghost function Line(): Link
      reads this
    {
      Link(sslInUse, gctx, gssenc, overUnix, unreadError)
    }

    /** The fields of the connection, without the bookkeeping of the proofs. */
    ghost function View(): Conn
      reads this
    {
      Conn(status, Here(), StillToTry(), Line(), Kind(readOnly, hotStandby))
    }

    /** Hosts still to come, in this pass and the second. */
    ghost function HostsLeft(): nat
      reads this
      requires -1 <= whichhost < nconnhost
    {
      nconnhost - 1 - whichhost + if target == PreferStandby then nconnhost else 0
    }

    ghost function Left(): nat
      reads this
      requires -1 <= whichhost < nconnhost && (addrs == [] || addrCur < |addrs|)
    {
      if addrs == [] then Rank(HostsLeft(), maxAddrs, 0)
      else Rank(HostsLeft(), maxAddrs, |addrs| - 1 - addrCur) + Flags()
    }

    ghost predicate Shaped()
      reads this
    {
      && -1 <= whichhost < nconnhost
      && (addrs == [] || addrCur < |addrs|) && |addrs| <= maxAddrs
      && secondPasses == (if target == PreferStandbyPass2 then 1 else 0)
    }

    /** Every socket was paid for by something that can not come back. */
    ghost predicate Paid(needNew: bool)
      reads this
      requires Shaped()
    {
      && sockets + Left() + (if spent then 0 else 1) <= budget
      && (needNew ==> !spent)
      && (status == NEEDED && !tryNextAddr && !tryNextHost ==> !spent)
    }

    /** Past the startup packet. */
    predicate Started()
      reads this
    {
      status == AWAITING_RESPONSE || status == AUTH_OK || status == CHECK_TARGET || status == CHECK_WRITABLE
      || status == CHECK_STANDBY || status == CONSUME || status == OK
    }

    /** A required SSL is still going to be asked for, except over a Unix socket. */
    ghost predicate Asked()
      reads this
      requires Shaped()
    {
      && (sslmode == SslRequire && addrs != [] ==> !waitSslTry && (allowSslTry || addrs[addrCur].isUnix))
      && (Active() && status != NEEDED && !tryNextHost && addrs != [] ==> overUnix == addrs[addrCur].isUnix)
    }

    /** What encryption the connection has, or still has to ask for. */
    ghost predicate Guarded()
      reads this
    {
      && (gssenc ==> gctx) && (gctx ==> tryGss && !overUnix)
      && (status == GSS_STARTUP ==> tryGss && !overUnix)
      && (status == MADE && gctx ==> gssenc)
      && (status == SSL_STARTUP ==> gssencmode != GssRequire)
      && (sslmode == SslRequire && Started() ==>
            sslInUse || gssenc || overUnix || (status == AWAITING_RESPONSE && unreadError))
      && (gssencmode == GssRequire && Started() ==> gssenc)
      && ((status == NEEDED && !tryNextAddr && !tryNextHost) || status == STARTED || status == SSL_STARTUP ==> !gctx)
    }

    /** A finished connection is of the kind that was asked for. */
    ghost predicate OnTarget()
      reads this
    {
      && (target == ReadWrite ==> readOnly == No && hotStandby == No)
      && (target == ReadOnly ==> readOnly == Yes || hotStandby == Yes)
      && (target == Primary ==> hotStandby == No)
      && (target == Standby || target == PreferStandby ==> hotStandby == Yes)
    }

    ghost predicate Valid(needNew: bool)
      reads this
    {
      && Shaped() && Paid(needNew)
      && Asked()
      && (!needNew ==> Guarded())
      && (status == OK && !needNew && !tryNextHost ==> OnTarget())
      && (Active() && status != NEEDED && !tryNextHost ==> addrs != [])
    }

    /** An attempt is under way. */
    predicate Active()
      reads this
    {
      status != OK && status != BAD
    }

    constructor (nconnhost: nat, sslmode: SslMode, gssencmode: GssMode, target: Target, sendsAppname: bool,
        ghost maxAddrs: nat)
      requires nconnhost > 0 && target != PreferStandbyPass2
      ensures this.nconnhost == nconnhost && this.sslmode == sslmode && this.gssencmode == gssencmode
      ensures this.target == target && this.maxAddrs == maxAddrs && Blank()
    {
      this.nconnhost, this.sslmode, this.gssencmode, this.target := nconnhost, sslmode, gssencmode, target;
      this.sendsAppname, this.maxAddrs := sendsAppname, maxAddrs;
      status, whichhost, addrs, addrCur, sockets, secondPasses := BAD, -1, [], 0, 0, 0;
      sslInUse, gctx, gssenc, unreadError := false, false, false, false;
    }

    /** Nothing is held from an earlier connection. */
    ghost predicate Blank()
      reads this
    {
      addrs == [] && !sslInUse && !gctx && !gssenc && !unreadError && nconnhost > 0
    }

    /** What would be left with every fallback still to come. */
    ghost function LeftFresh(): nat
      reads this
      requires Shaped() && addrs != []
    {
      Rank(HostsLeft(), maxAddrs, |addrs| - 1 - addrCur) + 3
    }

    /** Time to advance to the next address? */
    method NextAddress() returns (reset: bool)
      requires Shaped()
      modifies this`addrCur, this`tryNextHost, this`tryNextAddr
      ensures Shaped() && !tryNextAddr && (old(tryNextHost) ==> tryNextHost) && Left() <= old(Left())
      ensures reset ==> addrs != [] && LeftFresh() < old(Left()) && tryNextHost == old(tryNextHost)
      ensures !reset ==> addrCur == old(addrCur) && Left() == old(Left()) && (tryNextHost <==> old(tryNextHost ||
          tryNextAddr))
      ensures reset <==> old(tryNextAddr) && addrs != [] && old(addrCur) + 1 < |addrs|
      ensures addrCur == old(addrCur) + if reset then 1 else 0
      ensures Here() == AddressAfter(old(Here()))
    {
      reset := false;
      if tryNextAddr {
        if addrs != [] && addrCur + 1 < |addrs| {
          RankNextAddr(HostsLeft(), maxAddrs, |addrs| - 1 - addrCur);
          addrCur := addrCur + 1;
          reset := true;
        } else {
          tryNextHost := true;
        }
        tryNextAddr := false;
      }
    }

    /** The next host, or the first host of the second pass; its addresses. */
    method NextHost(resolve: Resolve) returns (next: Next)
      requires Shaped() && (resolve.Addrs? ==> |resolve.list| <= maxAddrs)
      modifies this`whichhost, this`target, this`secondPasses, this`addrs, this`addrCur, this`tryNextHost
      ensures Shaped() && Left() <= old(Left())
      ensures next == ErrorReturn || next == KeepGoing || next == NewConnection
      ensures next == NewConnection ==> addrs != [] && !tryNextHost && LeftFresh() < old(Left())
      ensures next == KeepGoing ==> tryNextHost == old(tryNextHost) && addrs == []
      ensures target == old(target) || (old(target) == PreferStandby && target == PreferStandbyPass2)
      ensures old(whichhost) + 1 < nconnhost ==> whichhost == old(whichhost) + 1 && target == old(target)
      ensures old(whichhost) + 1 == nconnhost && next != ErrorReturn ==>
                whichhost == 0 && old(target) == PreferStandby && target == PreferStandbyPass2
      ensures next == NewConnection ==> resolve.Addrs? && addrs == resolve.list && addrCur == 0
      ensures next == KeepGoing ==> resolve.Unusable? || resolve == Addrs([])
      ensures Sought(Here(), next) == HostAfter(Brings(), old(Here()), resolve)
    {
      hide Rank;
      ghost var h, a := HostsLeft(), if addrs == [] then 0 else |addrs| - 1 - addrCur;
      if whichhost + 1 < nconnhost {
        whichhost := whichhost + 1;
      } else if target == PreferStandby && nconnhost > 0 {
        target := PreferStandbyPass2;
        secondPasses := secondPasses + 1;
        whichhost := 0;
      } else {
        return ErrorReturn;
      }
      addrs := [];
      RankHostLost(h, HostsLeft(), maxAddrs, a);
      if resolve.PortFatal? {
        return ErrorReturn;
      }
      if resolve.Unusable? || resolve.list == [] {
        return KeepGoing;
      }
      RankNextHost(h, HostsLeft(), maxAddrs, a, |resolve.list| - 1);
      addrs := resolve.list;
      addrCur := 0;
      tryNextHost := false;
      return NewConnection;
    }

    /** Every fallback the settings allow is still to be tried. */
    predicate AllFallbacks()
      reads this
    {
      && sendAppname && allowSslTry == (sslmode != SslDisable) && waitSslTry == (sslmode == SslAllow)
      && tryGss == (gssencmode != GssDisable)
    }

    /** Fresh fallbacks for a new address. */
    method ResetFallbacks()
      requires Shaped() && addrs != []
      modifies this`sendAppname, this`allowSslTry, this`waitSslTry, this`tryGss
      ensures Shaped() && Left() <= LeftFresh() && LeftFresh() == old(LeftFresh())
      ensures AllFallbacks() && (sslmode == SslRequire ==> allowSslTry && !waitSslTry)
      ensures StillToTry() == FreshFallbacks(Brings())
    {
      sendAppname := true;
      allowSslTry := sslmode != SslDisable;
      waitSslTry := sslmode == SslAllow;
      tryGss := gssencmode != GssDisable;
    }

    /** `pqDropConnection` and `pqDropServerData`. */
    method DropConnection()
      modifies this`sslInUse, this`gctx, this`gssenc, this`unreadError, this`readOnly, this`hotStandby, this`status
      ensures !sslInUse && !gctx && !gssenc && !unreadError && status == NEEDED
      ensures readOnly == Unknown && hotStandby == Unknown
    {
      sslInUse, gctx, gssenc, unreadError := false, false, false, false;
      readOnly, hotStandby := Unknown, Unknown;
      status := NEEDED;
    }

    /** A clean connection for a new address, or for the next fallback of the same one. */
    method StartOver(reset: bool)
      requires Shaped() && !tryNextAddr && !tryNextHost
      requires if reset then addrs != [] && sockets + LeftFresh() + 1 <= budget
               else !spent && sockets + Left() + 1 <= budget && Asked()
      modifies this
      ensures Valid(false) && status == NEEDED && !tryNextAddr && !tryNextHost
      ensures sockets == old(sockets) && budget == old(budget)
      ensures whichhost == old(whichhost) && addrCur == old(addrCur) && target == old(target) && addrs == old(addrs)
      ensures reset ==> AllFallbacks()
      ensures !reset ==>
                allowSslTry == old(allowSslTry) && waitSslTry == old(waitSslTry) && tryGss == old(tryGss) &&
                sendAppname == old(sendAppname)
      ensures View() == Dropped(if reset then old(View()).(fb := FreshFallbacks(Brings())) else old(View()))
    {
      hide Rank, OnTarget;
      if reset {
        ResetFallbacks();
        spent := false;
      }
      DropConnection();
    }

    /** Before the switch: the next address, the next host or pass, fresh fallbacks, a clean connection. */
    method Advance(ans: Answer, needNew: bool) returns (next: Next, still: bool)
      requires Valid(needNew) && (Active() || tryNextHost)
      requires ans.resolve.Addrs? ==> |ans.resolve.list| <= maxAddrs
      modifies this
      ensures Shaped() && sockets == old(sockets) && budget == old(budget)
      ensures sockets + Left() <= budget
      ensures next == KeepGoing || next == ErrorReturn || next == NewConnection
      ensures next == KeepGoing ==> Valid(still) && tryNextHost
      ensures next == NewConnection ==> Valid(false) && !tryNextAddr && !tryNextHost && Active()
      ensures !old(tryNextAddr) && !old(tryNextHost) ==> Kept() && Flags() == old(Flags()) && next == NewConnection
      ensures next != ErrorReturn && (old(tryNextAddr) || old(tryNextHost)) ==> MovedOn()
      ensures next == NewConnection && (old(tryNextAddr) || old(tryNextHost)) ==> status == NEEDED && AllFallbacks()
      ensures Moved(View(), next) == Advanced(Brings(), old(View()), ans, needNew)
      ensures still == (needNew && next == KeepGoing)
    {
      hide Rank, OnTarget, Left, LeftFresh, CandidateOf, FreshFallbacks, Dropped;
      still := false;
      var found, reset := NextCandidate(ans.resolve);
      if found != NewConnection {
        return found, needNew && found == KeepGoing;
      }
      if reset || needNew {
        StartOver(reset);
      }
      return NewConnection, false;
    }

    /** The next address or host, if it is time for one. */
    method NextCandidate(resolve: Resolve) returns (next: Next, reset: bool)
      requires Shaped() && (resolve.Addrs? ==> |resolve.list| <= maxAddrs)
      modifies this`whichhost, this`target, this`secondPasses, this`addrs, this`addrCur, this`tryNextHost,
          this`tryNextAddr
      ensures Shaped() && !tryNextAddr && Left() <= old(Left())
      ensures next == ErrorReturn || next == KeepGoing || next == NewConnection
      ensures next == NewConnection ==> !tryNextHost && reset == (old(tryNextAddr) || old(tryNextHost))
      ensures reset ==> next == NewConnection && addrs != [] && LeftFresh() < old(Left())
      ensures next == KeepGoing ==> tryNextHost && addrs == []
      ensures !old(tryNextAddr) && !old(tryNextHost) ==>
                next == NewConnection && whichhost == old(whichhost) && addrCur == old(addrCur) &&
                    target == old(target) && addrs == old(addrs)
      ensures old(tryNextAddr) && !old(tryNextHost) && old(addrs != [] && addrCur + 1 < |addrs|) ==>
                addrs == old(addrs) && addrCur == old(addrCur) + 1 && whichhost == old(whichhost)
      ensures next != ErrorReturn && (old(tryNextAddr) || old(tryNextHost)) ==> MovedOn()
      ensures Sought(Here(), next) == CandidateOf(Brings(), old(Here()), resolve)
    {
      hide Rank, Left, LeftFresh;
      reset := NextAddress();
      if tryNextHost {
        next := NextHost(resolve);
        reset := next == NewConnection;
        return;
      }
      return NewConnection, reset;
    }

    // -------------------------------------------------------- the states of the switch

    /** No state moves to another address or host, and a fallback that is used up stays used up. */
    twostate predicate Kept()
      reads this
    {
      && whichhost == old(whichhost) && addrCur == old(addrCur) && target == old(target)
      && (addrs == old(addrs) || (addrs == [] && status == OK))
      && (allowSslTry ==> old(allowSslTry)) && (waitSslTry ==> old(waitSslTry))
      && (tryGss ==> old(tryGss)) && (sendAppname ==> old(sendAppname))
    }

    /** The move to the next address of the host, to the next host, or to the first host of the second pass. */
    twostate predicate MovedOn()
      reads this
    {
      || (whichhost == old(whichhost) && target == old(target) && addrs == old(addrs) && addrCur == old(addrCur) + 1)
      || (whichhost == old(whichhost) + 1 && target == old(target))
      || (whichhost == 0 && old(whichhost) == nconnhost - 1 && old(target) == PreferStandby &&
          target == PreferStandbyPass2)
    }

    /** One fallback was used up, and nothing else changed about them. */
    twostate predicate GaveUpOne()
      reads this
    {
      Flags() == old(Flags()) - 1
    }

    /** What every state leaves behind. */
    ghost predicate After(next: Next)
      reads this
    {
      && Shaped() && sockets + Left() <= budget
      && (next != ErrorReturn ==> Valid(next == NewConnection) && (Active() || tryNextHost || next.Return?))
      && (next.Return? ==> !tryNextAddr && !tryNextHost && status != BAD && next.r != Failed && (next.r == Done <==>
          status == OK))
      && (next == NewConnection ==> Active())
    }

    method Needed(ans: Answer) returns (next: Next)
      requires Valid(false) && !tryNextAddr && !tryNextHost && status == NEEDED
      modifies this
      ensures budget == old(budget) && old(sockets) <= sockets <= old(sockets) + 1 && After(next)
      ensures sockets > old(sockets) ==> !old(spent)
      ensures Kept() && next != NewConnection && addrs == old(addrs)
      ensures addrs == [] <==> tryNextHost
      ensures addrs == [] ==> next == KeepGoing && sockets == old(sockets)
      ensures Moved(View(), next) == NeededOf(Brings(), old(View()), ans.sock)
    {
      hide Rank, OnTarget;
      if addrs == [] {
        tryNextHost := true;
        return KeepGoing;
      }
      next := OpenSocket(ans.sock);
    }

    method OpenSocket(sock: Sock) returns (next: Next)
      requires addrs != []
      requires Valid(false) && !tryNextAddr && !tryNextHost && status == NEEDED
      modifies this
      ensures budget == old(budget) && sockets == old(sockets) + 1 && After(next)
      ensures Kept() && addrs == old(addrs)
      ensures next == ErrorReturn <==> sock == NoSocket && addrCur + 1 == |addrs| && whichhost + 1 == nconnhost
      ensures next != NewConnection && status != OK
      ensures next != ErrorReturn ==>
                tryNextAddr == (sock == NoSocket || sock == SetupFails || sock == ConnectFails) &&
                status == if tryNextAddr then NEEDED else STARTED
      ensures !tryNextHost && (next == Return(Writing) <==> sock == InProgress)
      ensures next.Return? ==> next.r == Writing
      ensures Moved(View(), next) == NeededOf(Brings(), old(View()), sock)
    {
      hide Rank, OnTarget, Guarded;
      if sock == NoSocket && addrCur + 1 == |addrs| && whichhost + 1 == nconnhost {
        overUnix := addrs[addrCur].isUnix;
        sockets, spent := sockets + 1, true;
        return ErrorReturn;
      }
      if sock == NoSocket || sock == SetupFails || sock == ConnectFails {
        GiveUpAddress();
        return KeepGoing;
      }
      SocketOpen();
      return if sock == InProgress then Return(Writing) else KeepGoing;
    }

    /** The socket of this address came to nothing. */
    method GiveUpAddress()
      requires Valid(false) && !tryNextAddr && !tryNextHost && status == NEEDED && addrs != []
      modifies this`overUnix, this`sockets, this`spent, this`tryNextAddr
      ensures budget == old(budget) && sockets == old(sockets) + 1 && After(KeepGoing)
      ensures tryNextAddr && !tryNextHost && status == NEEDED
      ensures overUnix == addrs[addrCur].isUnix
      ensures View() == old(View()).(link := old(Line()).(overUnix := overUnix),
                                    at := old(Here()).(tryNextAddr := true))
    {
      hide Rank, OnTarget;
      overUnix := addrs[addrCur].isUnix;
      sockets, spent := sockets + 1, true;
      tryNextAddr := true;
    }

    method SocketOpen()
      requires Valid(false) && !tryNextAddr && !tryNextHost && status == NEEDED && addrs != []
      modifies this`overUnix, this`sockets, this`spent, this`status
      ensures budget == old(budget) && sockets == old(sockets) + 1 && After(KeepGoing)
      ensures status == STARTED && !tryNextAddr && !tryNextHost
      ensures overUnix == addrs[addrCur].isUnix
      ensures View() == old(View()).(link := old(Line()).(overUnix := overUnix), status := STARTED)
    {
      hide Rank, OnTarget;
      overUnix := addrs[addrCur].isUnix;
      sockets, spent := sockets + 1, true;
      status := STARTED;
    }

    method CheckStarted(ans: Answer) returns (next: Next)
      requires Valid(false) && !tryNextAddr && !tryNextHost && status == STARTED
      modifies this
      ensures budget == old(budget) && sockets == old(sockets) && After(next)
      ensures Kept() && !tryNextHost
      ensures next == if ans.sockError == -1 || (ans.sockError == 0 &&
          !ans.good) then ErrorReturn else if ans.sockError != 0 then KeepGoing else Return(Writing)
      ensures tryNextAddr <==> next == KeepGoing
      ensures next.Return? ==> status == MADE
      ensures Moved(View(), next) == StartedOf(old(View()), ans)
    {
      hide Rank;
      if ans.sockError == -1 {
        return ErrorReturn;
      }
      if ans.sockError != 0 {
        tryNextAddr := true;
        return KeepGoing;
      }
      if !ans.good {
        return ErrorReturn;
      }
      status := MADE;
      return Return(Writing);
    }

    method Made(ans: Answer) returns (next: Next)
      requires Valid(false) && !tryNextAddr && !tryNextHost && status == MADE
      modifies this
      ensures budget == old(budget) && sockets == old(sockets) && After(next)
      ensures Kept() && !tryNextAddr && !tryNextHost
      ensures next == if !ans.good || (gssencmode == GssRequire && !tryGss &&
          !gctx) then ErrorReturn else Return(Reading)
      ensures ans.good ==>
                tryGss == (old(tryGss) && !overUnix && (gctx || ans.haveCred)) && allowSslTry == (old(allowSslTry) &&
                !overUnix)
      ensures next.Return? ==> status == if tryGss &&
          !gctx then GSS_STARTUP else if AsksForSsl() then SSL_STARTUP else AWAITING_RESPONSE
      ensures Moved(View(), next) == MadeOf(Brings(), old(View()), ans)
    {
      hide Rank, OnTarget;
      if !ans.good {
        return ErrorReturn;
      }
      NoEncryptionOverUnix(ans.haveCred);
      next := AskForEncryption();
    }

    method AskForEncryption() returns (next: Next)
      requires Valid(false) && !tryNextAddr && !tryNextHost && status == MADE
      requires overUnix ==> !allowSslTry && !tryGss
      modifies this
      ensures budget == old(budget) && sockets == old(sockets) && After(next)
      ensures Kept() && !tryNextAddr && !tryNextHost
      ensures next == if gssencmode == GssRequire && !tryGss && !gctx then ErrorReturn else Return(Reading)
      ensures next.Return? ==> status == if tryGss &&
          !gctx then GSS_STARTUP else if AsksForSsl() then SSL_STARTUP else AWAITING_RESPONSE
      ensures View() == old(View()).(status := status) && (next == ErrorReturn ==> status == MADE)
    {
      hide Rank, OnTarget;
      if tryGss && !gctx {
        status := GSS_STARTUP;
        return Return(Reading);
      } else if !gctx && gssencmode == GssRequire {
        return ErrorReturn;
      }
      next := AskForSsl();
    }

    predicate AsksForSsl()
      reads this
    {
      allowSslTry && !waitSslTry && !sslInUse && !gssenc
    }

    /** The SSL request, or the startup packet. */
    method AskForSsl() returns (next: Next)
      requires Valid(false) && !tryNextAddr && !tryNextHost && status == MADE
      requires (overUnix ==> !allowSslTry && !tryGss) && (gssencmode == GssRequire ==> gctx)
      modifies this
      ensures budget == old(budget) && sockets == old(sockets) && After(next)
      ensures Kept() && !tryNextAddr && !tryNextHost && next == Return(Reading)
      ensures tryGss == old(tryGss) && gctx == old(gctx) && allowSslTry == old(allowSslTry)
      ensures status == if AsksForSsl() then SSL_STARTUP else AWAITING_RESPONSE
      ensures View() == old(View()).(status := status)
    {
      hide Rank, OnTarget;
      if allowSslTry && !waitSslTry && !sslInUse && !gssenc {
        status := SSL_STARTUP;
        return Return(Reading);
      }
      status := AWAITING_RESPONSE;
      return Return(Reading);
    }

    method NoEncryptionOverUnix(haveCred: bool)
      requires Valid(false) && !tryNextAddr && !tryNextHost && status == MADE
      modifies this`allowSslTry, this`tryGss
      ensures Valid(false)
      ensures overUnix ==> !allowSslTry && !tryGss
      ensures Kept()
      ensures tryGss == (old(tryGss) && !overUnix && (gctx || haveCred)) && allowSslTry == (old(allowSslTry) &&
          !overUnix)
      ensures View() == old(View()).(fb := old(StillToTry()).(allowSslTry := allowSslTry, tryGss := tryGss))
    {
      hide Rank, OnTarget;
      if overUnix {
        allowSslTry := false;
        tryGss := false;
      }
      if tryGss && !gctx {
        tryGss := haveCred;
      }
    }

    method SslStartup(ans: Answer) returns (next: Next)
      requires Valid(false) && !tryNextAddr && !tryNextHost && status == SSL_STARTUP
      modifies this
      ensures budget == old(budget) && sockets == old(sockets) && After(next)
      ensures Kept() && !tryNextAddr && !tryNextHost
      ensures next == NewConnection ==> sslmode == SslPrefer && old(allowSslTry) && !allowSslTry && GaveUpOne()
      ensures next == Return(Writing) && status == MADE ==> sslInUse || (sslmode != SslRequire && !allowSslTry)
      ensures Moved(View(), next) == SslStartupOf(Brings(), old(View()), ans)
    {
      hide Rank, OnTarget;
      if !sslInUse {
        if ans.read < 0 {
          return ErrorReturn;
        }
        if ans.read == 0 || ans.byte == NoByte {
          return Return(Reading);
        }
        if ans.byte != Accept {
          next := SslNotAccepted(ans.byte);
          return;
        }
        if !ans.good {
          return ErrorReturn;
        }
        sslInUse := true;
      }
      next := SslHandshake(ans.handshake, ans.early);
    }

    /** The server wants no SSL, or sends an error, which is left for the next state to read, or garbage. */
    method SslNotAccepted(byte: Byte) returns (next: Next)
      requires Valid(false) && !tryNextAddr && !tryNextHost && status == SSL_STARTUP
      modifies this
      ensures budget == old(budget) && sockets == old(sockets) && After(next)
      ensures Kept() && !tryNextAddr && !tryNextHost && sslInUse == old(sslInUse)
      ensures next == if byte == ErrorByte then KeepGoing else if byte == Refuse &&
          sslmode != SslRequire then Return(Writing) else ErrorReturn
      ensures next == KeepGoing ==> unreadError && status == AWAITING_RESPONSE
      ensures next.Return? ==> !allowSslTry && status == MADE
      ensures Moved(View(), next) == SslRefused(Brings(), old(View()), byte)
    {
      hide Rank, OnTarget;
      if byte == ErrorByte {
        unreadError := true;
        status := AWAITING_RESPONSE;
        return KeepGoing;
      }
      if byte != Refuse || sslmode == SslRequire {
        return ErrorReturn;
      }
      allowSslTry := false;
      status := MADE;
      return Return(Writing);
    }

    method SslHandshake(handshake: Polling, early: bool) returns (next: Next)
      requires Valid(false) && !tryNextAddr && !tryNextHost && status == SSL_STARTUP
      modifies this
      ensures budget == old(budget) && sockets == old(sockets) && After(next)
      ensures Kept() && !tryNextAddr && !tryNextHost
      ensures next == if handshake == Done then (if early then ErrorReturn else Return(Writing))
                      else if handshake != Failed then Return(handshake)
                      else if sslmode == SslPrefer && old(allowSslTry) && !waitSslTry then NewConnection
                      else ErrorReturn
      ensures handshake == Done && next.Return? ==> status == MADE && sslInUse == old(sslInUse)
      ensures next == NewConnection ==> !allowSslTry && GaveUpOne()
      ensures handshake != Done ==> status == old(status)
      ensures Moved(View(), next) == SslHandshakeOf(Brings(), old(View()), handshake, early)
    {
      hide Rank, OnTarget;
      if handshake == Done {
        if early {
          return ErrorReturn;
        }
        status := MADE;
        return Return(Writing);
      }
      if handshake == Failed {
        sslInUse := false;
        if sslmode == SslPrefer && allowSslTry && !waitSslTry {
          RetryWithoutSsl();
          return NewConnection;
        }
        return ErrorReturn;
      }
      return Return(handshake);
    }

    method GssStartup(ans: Answer) returns (next: Next)
      requires Valid(false) && !tryNextAddr && !tryNextHost && status == GSS_STARTUP
      modifies this
      ensures budget == old(budget) && sockets == old(sockets) && After(next)
      ensures Kept() && !tryNextAddr && !tryNextHost
      ensures next == NewConnection ==> old(tryGss) && !tryGss && GaveUpOne()
      ensures next == Return(Writing) && status == MADE ==> gssenc || (gssencmode != GssRequire && !tryGss)
      ensures Moved(View(), next) == GssStartupOf(Brings(), old(View()), ans)
    {
      hide Rank, OnTarget;
      if tryGss && !gctx {
        if ans.read < 0 {
          return ErrorReturn;
        }
        if ans.read == 0 || ans.byte == NoByte {
          return Return(Reading);
        }
        if ans.byte != Accept {
          next := GssNotAccepted(ans.byte);
          return;
        }
      }
      next := GssHandshake(ans.handshake, ans.early);
    }

    method GssNotAccepted(byte: Byte) returns (next: Next)
      requires Valid(false) && !tryNextAddr && !tryNextHost && status == GSS_STARTUP
      modifies this
      ensures budget == old(budget) && sockets == old(sockets) && After(next)
      ensures Kept() && !tryNextAddr && !tryNextHost
      ensures next == if byte == ErrorByte then NewConnection else if byte == Refuse && !gctx &&
          gssencmode != GssRequire then Return(Writing) else ErrorReturn
      ensures next == NewConnection || next.Return? ==> !tryGss && GaveUpOne()
      ensures next.Return? ==> status == MADE
      ensures Moved(View(), next) == GssRefused(Brings(), old(View()), byte)
    {
      hide Rank, OnTarget;
      if byte == ErrorByte {
        RetryWithoutGss();
        return NewConnection;
      }
      if byte != Refuse || gctx || gssencmode == GssRequire {
        return ErrorReturn;
      }
      tryGss := false;
      status := MADE;
      return Return(Writing);
    }

    method GssHandshake(handshake: Polling, early: bool) returns (next: Next)
      requires Valid(false) && !tryNextAddr && !tryNextHost && status == GSS_STARTUP
      modifies this
      ensures budget == old(budget) && sockets == old(sockets) && After(next)
      ensures Kept() && !tryNextAddr && !tryNextHost
      ensures next == if handshake == Done then (if early then ErrorReturn else Return(Writing))
                      else if handshake != Failed then Return(handshake)
                      else if gssencmode == GssPrefer then NewConnection
                      else ErrorReturn
      ensures handshake == Done && next.Return? ==> status == MADE && gssenc
      ensures next == NewConnection ==> !tryGss && GaveUpOne()
      ensures handshake != Done ==> status == old(status)
      ensures Moved(View(), next) == GssHandshakeOf(Brings(), old(View()), handshake, early)
    {
      hide Rank, OnTarget;
      if handshake == Done {
        next := GssDone(early);
        return;
      }
      if handshake == Failed {
        if gssencmode == GssPrefer {
          RetryWithoutGss();
          return NewConnection;
        }
        return ErrorReturn;
      }
      gctx := true;
      return Return(handshake);
    }

    /** Encryption is up; what the server sent in the clear before that is not to be trusted. */
    method GssDone(early: bool) returns (next: Next)
      requires Valid(false) && !tryNextAddr && !tryNextHost && status == GSS_STARTUP
      modifies this`gctx, this`gssenc, this`status
      ensures After(next) && Kept() && gssenc
      ensures next == if early then ErrorReturn else Return(Writing)
      ensures !early ==> status == MADE
      ensures View() == old(View()).(link := old(Line()).(gctx := true, gssenc := true),
                                    status := if early then old(status) else MADE)
    {
      hide Rank, OnTarget;
      gctx, gssenc := true, true;
      if early {
        return ErrorReturn;
      }
      status := MADE;
      return Return(Writing);
    }

    method AwaitingResponse(ans: Answer) returns (next: Next)
      requires Valid(false) && !tryNextAddr && !tryNextHost && status == AWAITING_RESPONSE
      modifies this
      ensures budget == old(budget) && sockets == old(sockets) && After(next)
      ensures Kept() && !tryNextAddr
      ensures status == AUTH_OK <==> ans.message == Request(true, true) && ans.good && !unreadError
      ensures tryNextHost <==> ans.message == Error(true) && ans.good
      ensures next == NewConnection ==> ans.message == Error(false) && GaveUpOne()
      ensures match ans.message
              case Incomplete => next == Return(Reading)
              case Malformed => next == ErrorReturn
              case OldError => next == ErrorReturn
              case Error(true) => next == if ans.good then KeepGoing else ErrorReturn
              case Error(false) => next == ErrorReturn || (ans.good && next == NewConnection)
              case Request(handled, _) =>
                next == if unreadError then Return(Reading)
                        else if ans.good && handled then KeepGoing else ErrorReturn
      ensures Moved(View(), next) == ResponseOf(Brings(), old(View()), ans)
    {
      hide Rank, OnTarget;
      // an 'E' that is still unread is the beginning of an error, not of a request
      if ans.message == Incomplete || (unreadError && ans.message.Request?) {
        return Return(Reading);
      }
      if ans.message == Malformed || ans.message == OldError || !ans.good {
        return ErrorReturn;
      }
      if ans.message.Error? {
        next := ServerError(ans.message.cannotConnectNow);
        return;
      }
      if !ans.message.handled {
        return ErrorReturn;
      }
      if ans.message.isOk {
        status := AUTH_OK;
      }
      return KeepGoing;
    }

    /** An encryption the server might like better is still to be tried on the same address. */
    predicate Retries()
      reads this
    {
      || (gssenc && gssencmode == GssPrefer)
      || (sslmode == SslAllow && !sslInUse && allowSslTry && waitSslTry)
      || (sslmode == SslPrefer && sslInUse && allowSslTry && !waitSslTry)
    }

    /** An error from the server: another host, another encryption, or the end. */
    method ServerError(cannotConnectNow: bool) returns (next: Next)
      requires Valid(false) && !tryNextAddr && !tryNextHost && status == AWAITING_RESPONSE
      modifies this
      ensures budget == old(budget) && sockets == old(sockets) && After(next)
      ensures Kept() && !tryNextAddr && status == old(status)
      ensures tryNextHost == cannotConnectNow && (next == KeepGoing <==> cannotConnectNow)
      ensures next == NewConnection <==> !cannotConnectNow && old(Retries())
      ensures next == NewConnection ==> GaveUpOne()
      ensures next == NewConnection || next == KeepGoing || next == ErrorReturn
      ensures Moved(View(), next) == ServerErrorOf(Brings(), old(View()), cannotConnectNow)
    {
      hide Rank, OnTarget;
      if cannotConnectNow {
        tryNextHost := true;
        return KeepGoing;
      }
      if gssenc && gssencmode == GssPrefer {
        RetryWithoutGss();
        return NewConnection;
      }
      if sslmode == SslAllow && !sslInUse && allowSslTry && waitSslTry {
        RetryWithSsl();
        return NewConnection;
      }
      if sslmode == SslPrefer && sslInUse && allowSslTry && !waitSslTry {
        RetryWithoutSsl();
        return NewConnection;
      }
      return ErrorReturn;
    }

    method AuthOk(ans: Answer) returns (next: Next)
      requires Valid(false) && !tryNextAddr && !tryNextHost && status == AUTH_OK
      modifies this
      ensures budget == old(budget) && sockets == old(sockets) && After(next)
      ensures Kept() && !tryNextAddr && !tryNextHost
      ensures status == CHECK_TARGET <==> !ans.busy && ans.result == Nothing
      ensures next == NewConnection <==> !ans.busy && ans.result == Fatal(true) && old(sendAppname) && sendsAppname
      ensures next == NewConnection ==> !sendAppname && GaveUpOne()
      ensures readOnly == ans.reportedReadOnly && hotStandby == ans.reportedStandby
      ensures Moved(View(), next) == AuthOkOf(Brings(), old(View()), ans)
    {
      hide Rank, OnTarget;
      LearnKind(ans.reportedReadOnly, ans.reportedStandby);
      if ans.busy {
        return Return(Reading);
      }
      if ans.result != Nothing {
        next := QueryRefused(ans.result);
        return;
      }
      status := CHECK_TARGET;
      return KeepGoing;
    }

    /** What the server reported about itself. */
    method LearnKind(reportedReadOnly: Tri, reportedStandby: Tri)
      requires Valid(false) && status == AUTH_OK
      modifies this`readOnly, this`hotStandby
      ensures Valid(false) && readOnly == reportedReadOnly && hotStandby == reportedStandby
    {
      hide Rank, OnTarget;
      readOnly, hotStandby := reportedReadOnly, reportedStandby;
    }

    /** A server that does not know application_name is asked again without it. */
    method QueryRefused(result: Result) returns (next: Next)
      requires Valid(false) && !tryNextAddr && !tryNextHost && status == AUTH_OK && result != Nothing
      modifies this`sendAppname, this`spent
      ensures After(next) && Kept()
      ensures next == if result == Fatal(true) && old(sendAppname) && sendsAppname then NewConnection else ErrorReturn
      ensures next == NewConnection ==> !sendAppname && GaveUpOne()
      ensures View() == old(View()).(fb := old(StillToTry()).(sendAppname := old(sendAppname) && next != NewConnection))
    {
      hide Rank, OnTarget, Guarded;
      if result.Fatal? && sendAppname && sendsAppname && result.appnameUnknown {
        RetryWithoutAppname();
        return NewConnection;
      }
      return ErrorReturn;
    }

    /** The four fallbacks: each gives up one thing for good and asks for a new socket to the same address. */
    method RetryWithoutGss()
      requires Fallible() && tryGss
      modifies this`tryGss, this`spent
      ensures After(NewConnection)
      ensures !tryGss && GaveUpOne()
      ensures View() == WithoutGss(old(View()))
    {
      hide Rank, OnTarget, Guarded;
      tryGss := false;
      spent := false;
    }

    method RetryWithSsl()
      requires Fallible() && waitSslTry && sslmode == SslAllow
      modifies this`waitSslTry, this`spent
      ensures After(NewConnection)
      ensures !waitSslTry && GaveUpOne()
      ensures View() == old(View()).(fb := old(StillToTry()).(waitSslTry := false))
    {
      hide Rank, OnTarget, Guarded;
      waitSslTry := false;
      spent := false;
    }

    method RetryWithoutSsl()
      requires Fallible() && allowSslTry && sslmode == SslPrefer
      modifies this`allowSslTry, this`spent
      ensures After(NewConnection)
      ensures !allowSslTry && GaveUpOne()
      ensures View() == old(View()).(fb := old(StillToTry()).(allowSslTry := false))
    {
      hide Rank, OnTarget, Guarded;
      allowSslTry := false;
      spent := false;
    }

    /** An attempt on an address is under way and paid for. */
    ghost predicate Fallible()
      reads this
    {
      && Shaped() && Paid(false) && Asked() && addrs != [] && Active() && status != NEEDED
    }

    method RetryWithoutAppname()
      requires Fallible() && sendAppname
      modifies this`sendAppname, this`spent
      ensures After(NewConnection)
      ensures !sendAppname && GaveUpOne()
      ensures View() == old(View()).(fb := old(StillToTry()).(sendAppname := false))
    {
      hide Rank, OnTarget, Guarded;
      sendAppname := false;
      spent := false;
    }

    method CheckTarget(ans: Answer) returns (next: Next)
      requires Valid(false) && !tryNextAddr && !tryNextHost && status == CHECK_TARGET
      modifies this
      ensures budget == old(budget) && sockets == old(sockets) && After(next)
      ensures Kept() && !tryNextAddr
      ensures next == KeepGoing || next == Return(Done) || next == Return(Reading) || next == ErrorReturn
      ensures next == KeepGoing ==> tryNextHost && !OnTarget()
      ensures next == Return(Done) ==> OnTarget()
      ensures next == Return(Reading) ==> status == if target == ReadWrite ||
          target == ReadOnly then CHECK_WRITABLE else CHECK_STANDBY
      ensures target == Any || target == PreferStandbyPass2 ==> next == Return(Done)
      ensures Moved(View(), next) == CheckTargetOf(old(View()), ans)
    {
      hide Rank, Guarded;
      if target == ReadWrite || target == ReadOnly {
        if readOnly == Unknown || hotStandby == Unknown {
          next := AskServer(CHECK_WRITABLE, ans.good);
          return;
        }
        var readOnlyServer := readOnly == Yes || hotStandby == Yes;
        if if target == ReadWrite then readOnlyServer else !readOnlyServer {
          next := WrongServer();
          return;
        }
      } else if target == Primary || target == Standby || target == PreferStandby {
        if ans.oldServer {
          OldServer();
        }
        if hotStandby == Unknown {
          next := AskServer(CHECK_STANDBY, ans.good);
          return;
        }
        if if target == Primary then hotStandby == Yes else hotStandby == No {
          next := WrongServer();
          return;
        }
      }
      next := OpenForBusiness();
    }

    /** Servers before 9.0 have no standby mode. */
    method OldServer()
      requires Valid(false) && status == CHECK_TARGET
      modifies this`hotStandby
      ensures Valid(false) && hotStandby == No
      ensures Kept()
      ensures View() == old(View()).(kind := Kind(readOnly, No))
    {
      hide Rank, OnTarget;
      hotStandby := No;
    }

    method AskServer(answerState: Status, good: bool) returns (next: Next)
      requires answerState == CHECK_WRITABLE || answerState == CHECK_STANDBY
      requires Valid(false) && !tryNextAddr && !tryNextHost && status == CHECK_TARGET
      modifies this
      ensures budget == old(budget) && sockets == old(sockets) && After(next)
      ensures Kept() && !tryNextAddr && !tryNextHost && next == (if good then Return(Reading) else ErrorReturn) &&
          (good ==> status == answerState)
      ensures View() == if good then old(View()).(status := answerState) else old(View())
    {
      hide Rank, OnTarget;
      if !good {
        return ErrorReturn;
      }
      status := answerState;
      return Return(Reading);
    }

    /** The connection is closed politely, in state OK, and the next host has its turn. */
    method WrongServer() returns (next: Next)
      requires Valid(false) && !tryNextAddr && !tryNextHost && Started() && status != OK
      requires status == AWAITING_RESPONSE ==> !unreadError
      modifies this
      ensures budget == old(budget) && sockets == old(sockets) && After(next)
      ensures Kept() && !tryNextAddr && tryNextHost && next == KeepGoing && readOnly == old(readOnly) &&
          hotStandby == old(hotStandby)
      ensures Moved(View(), next) == Wrong(old(View()))
    {
      hide Rank, OnTarget;
      status := OK;
      tryNextHost := true;
      return KeepGoing;
    }

    method OpenForBusiness() returns (next: Next)
      requires OnTarget()
      requires Valid(false) && !tryNextAddr && !tryNextHost && status == CHECK_TARGET
      modifies this
      ensures budget == old(budget) && sockets == old(sockets) && After(next)
      ensures Kept() && next == Return(Done) && OnTarget() && !tryNextAddr && !tryNextHost
      ensures Moved(View(), next) == Open(old(View()))
    {
      hide Rank;
      RankHostLost(HostsLeft(), HostsLeft(), maxAddrs, if addrs == [] then 0 else |addrs| - 1 - addrCur);
      addrs := [];
      status := OK;
      return Return(Done);
    }

    method Consume(ans: Answer) returns (next: Next)
      requires Valid(false) && !tryNextAddr && !tryNextHost && status == CONSUME
      modifies this
      ensures budget == old(budget) && sockets == old(sockets) && After(next)
      ensures Kept() && !tryNextAddr && !tryNextHost && readOnly == old(readOnly) && hotStandby == old(hotStandby)
      ensures next == if !ans.good then ErrorReturn else if ans.busy ||
          ans.result != Nothing then Return(Reading) else KeepGoing
      ensures next == KeepGoing ==> status == CHECK_TARGET
      ensures Moved(View(), next) == ConsumeOf(old(View()), ans)
    {
      hide Rank, OnTarget;
      if !ans.good {
        return ErrorReturn;
      }
      if ans.busy || ans.result != Nothing {
        return Return(Reading);
      }
      status := CHECK_TARGET;
      return KeepGoing;
    }

    method CheckWritable(ans: Answer) returns (next: Next)
      requires Valid(false) && !tryNextAddr && !tryNextHost && status == CHECK_WRITABLE
      modifies this
      ensures budget == old(budget) && sockets == old(sockets) && After(next)
      ensures Kept() && !tryNextAddr
      ensures next == if !ans.good then ErrorReturn else if ans.busy then Return(Reading) else KeepGoing
      ensures next == KeepGoing && ans.result.Row? ==> status == CONSUME && !tryNextHost && (readOnly == Yes <==>
          ans.result.positive)
      ensures next == KeepGoing && ans.result.Row? ==> hotStandby == readOnly && readOnly != Unknown
      ensures next == KeepGoing && !ans.result.Row? ==> tryNextHost
      ensures Moved(View(), next) == CheckWritableOf(old(View()), ans)
    {
      hide Rank, OnTarget;
      if !ans.good {
        return ErrorReturn;
      }
      if ans.busy {
        return Return(Reading);
      }
      if ans.result.Row? {
        readOnly, hotStandby := if ans.result.positive then Yes else No, if ans.result.positive then Yes else No;
        status := CONSUME;
        return KeepGoing;
      }
      next := WrongServer();
    }

    method CheckStandby(ans: Answer) returns (next: Next)
      requires Valid(false) && !tryNextAddr && !tryNextHost && status == CHECK_STANDBY
      modifies this
      ensures budget == old(budget) && sockets == old(sockets) && After(next)
      ensures Kept() && !tryNextAddr
      ensures next == if !ans.good then ErrorReturn else if ans.busy then Return(Reading) else KeepGoing
      ensures next == KeepGoing && ans.result.Row? ==>
                status == CONSUME && !tryNextHost && hotStandby == if ans.result.positive then Yes else No
      ensures next == KeepGoing && !ans.result.Row? ==> tryNextHost
      ensures Moved(View(), next) == CheckStandbyOf(old(View()), ans)
    {
      hide Rank, OnTarget;
      if !ans.good {
        return ErrorReturn;
      }
      if ans.busy {
        return Return(Reading);
      }
      if ans.result.Row? {
        hotStandby := if ans.result.positive then Yes else No;
        status := CONSUME;
        return KeepGoing;
      }
      next := WrongServer();
    }

    // -------------------------------------------------------- the whole machine

    /** One turn of `keep_going`. */
    method Turn(ans: Answer, needNew: bool) returns (next: Next, still: bool)
      requires Valid(needNew) && (Active() || tryNextHost) && Fits(ans)
      modifies this
      ensures budget == old(budget) && Shaped() && sockets + Left() <= budget
      ensures old(sockets) <= sockets <= old(sockets) + 1
      ensures next == KeepGoing ==> Valid(still) && (Active() || tryNextHost)
      ensures next == NewConnection ==> Valid(true) && Active()
      ensures next.Return? ==>
                Valid(false) && !tryNextAddr && !tryNextHost && status != BAD && next.r != Failed &&
                (next.r == Done <==> status == OK)
      ensures !old(tryNextAddr) && !old(tryNextHost) ==> Kept()
      ensures next != ErrorReturn && (old(tryNextAddr) || old(tryNextHost)) ==> MovedOn()
      ensures Turned(View(), next, still) == TurnOf(Brings(), old(View()), ans, needNew)
    {
      hide Rank, OnTarget, Guarded, Asked, Paid, Left;
      var go, s := Advance(ans, needNew);
      still := s;
      if go == ErrorReturn || go == KeepGoing {
        return go, still;
      }
      still := false;
      next := Switch(ans);
    }

    method Switch(ans: Answer) returns (next: Next)
      requires Valid(false) && !tryNextAddr && !tryNextHost && Active()
      modifies this
      ensures budget == old(budget) && old(sockets) <= sockets <= old(sockets) + 1 && After(next)
      ensures Kept() && (old(status) == NEEDED ==> addrs == old(addrs))
      ensures next == NewConnection ==> GaveUpOne() && !tryNextAddr && !tryNextHost
      ensures Moved(View(), next) == Switched(Brings(), old(View()), ans)
    {
      hide Rank, OnTarget, Guarded, Asked, Paid, Left, After;
      if status == NEEDED {
        next := Needed(ans);
      } else if status == STARTED {
        next := CheckStarted(ans);
      } else if status == MADE {
        next := Made(ans);
      } else if status == SSL_STARTUP {
        next := SslStartup(ans);
      } else if status == GSS_STARTUP {
        next := GssStartup(ans);
      } else if status == AWAITING_RESPONSE {
        next := AwaitingResponse(ans);
      } else if status == AUTH_OK {
        next := AuthOk(ans);
      } else if status == CHECK_TARGET {
        next := CheckTarget(ans);
      } else if status == CONSUME {
        next := Consume(ans);
      } else if status == CHECK_WRITABLE {
        next := CheckWritable(ans);
      } else {
        next := CheckStandby(ans);
      }
    }

    /** `error_return`. */
    method GiveUp()
      requires Shaped()
      modifies this`status
      ensures status == BAD && Shaped() && Left() == old(Left())
      ensures View() == old(View()).(status := BAD)
    {
      status := BAD;
    }

    ghost predicate Fits(ans: Answer) {
      ans.resolve.Addrs? ==> |ans.resolve.list| <= maxAddrs
    }

    /** Between two calls. */
    ghost predicate Resting()
      reads this
    {
      && Shaped() && sockets + Left() <= budget
      && (status != BAD ==> Valid(false))
      && (status != BAD && status != NEEDED ==> !tryNextAddr && !tryNextHost)
    }

    /** `PQconnectPoll`. None when the answers end before the call does. */
    method Poll(answers: seq<Answer>) returns (r: Polling, finished: bool)
      requires Resting() && forall i :: 0 <= i < |answers| ==> Fits(answers[i])
      modifies this
      ensures Shaped() && sockets <= budget && budget == old(budget)
      ensures finished ==> Resting() && (r == Failed <==> status == BAD) && (r == Done <==> status == OK)
      ensures finished && status != BAD && old(status) != OK ==> !tryNextAddr && !tryNextHost
      ensures Polled(View(), r, finished) == PollOf(Brings(), old(View()), answers)
    {
      hide Rank, OnTarget, Guarded, Asked, Paid, Left, Fits, PollLoop;
      if status == BAD {
        return Failed, true;
      }
      if status == OK {
        return Done, true;
      }
      if answers == [] {
        return Reading, false;
      }
      if status == AWAITING_RESPONSE || status == AUTH_OK || status == CHECK_WRITABLE || status == CONSUME ||
          status == CHECK_STANDBY {
        if answers[0].read < 0 {
          GiveUp();
          return Failed, true;
        }
        if answers[0].read == 0 {
          return Reading, true;
        }
      }
      r, finished := KeepOn(answers);
    }

    /** `keep_going` until a state returns. */
    method KeepOn(answers: seq<Answer>) returns (r: Polling, finished: bool)
      requires Valid(false) && Resting() && Active() && forall i :: 0 <= i < |answers| ==> Fits(answers[i])
      modifies this
      ensures Shaped() && sockets <= budget && budget == old(budget)
      ensures finished ==> Resting() && (r == Failed <==> status == BAD) && (r == Done <==> status == OK)
      ensures finished && status != BAD ==> !tryNextAddr && !tryNextHost
      ensures Polled(View(), r, finished) == PollLoop(Brings(), old(View()), answers, false)
    {
      hide Rank, OnTarget, Guarded, Asked, Paid, Left, Fits, TurnOf, View;
      var needNew := false;
      assert answers[0..] == answers;
      for i := 0 to |answers|
        invariant Valid(needNew) && (Active() || tryNextHost) && budget == old(budget) && sockets + Left() <= budget
        invariant PollLoop(Brings(), View(), answers[i..], needNew) == PollLoop(Brings(), old(View()), answers, false)
      {
        assert answers[i..][0] == answers[i] && answers[i..][1..] == answers[i + 1..];
        var next, still := Turn(answers[i], needNew);
        if next == ErrorReturn {
          GiveUp();
          return Failed, true;
        }
        if next.Return? {
          return next.r, true;
        }
        needNew := next == NewConnection || still;
      }
      return Reading, false;
    }

    /** `connectDBStart` on a connection that holds nothing from before. */
    method ConnectDBStart(answers: seq<Answer>) returns (ok: bool, finished: bool)
      requires Blank()
      requires forall i :: 0 <= i < |answers| ==> Fits(answers[i])
      modifies this
      ensures Shaped() && sockets <= budget && budget == Most(old(target))
      ensures finished ==> Resting() && (!ok <==> status == BAD)
      ensures var p := PollOf(Brings(), Rewound(old(View())), answers);
              && finished == p.finished && (ok <==> p.finished && p.r == Writing)
              && View() == if p.finished && p.r != Writing then Dropped(p.c).(status := BAD) else p.c
    {
      hide Rank, OnTarget, Guarded, Asked, Paid, Left, PollOf, Dropped, Rewound;
      StartFresh();
      var r, done := Poll(answers);
      if !done {
        return false, false;
      }
      if r == Writing {
        return true, true;
      }
      CloseAndGiveUp();
      return false, true;
    }

    method CloseAndGiveUp()
      requires Shaped() && sockets + Left() <= budget
      modifies this
      ensures status == BAD && Resting() && budget == old(budget) && sockets == old(sockets)
      ensures View() == Dropped(old(View())).(status := BAD)
    {
      hide Rank;
      DropConnection();
      status := BAD;
    }

    /** The first host is still to come, and so may be a second pass. */
    method StartFresh()
      requires Blank()
      modifies this
      ensures Resting() && budget == Most(old(target)) && sockets == 0 && status == NEEDED
      ensures whichhost == -1 && tryNextHost && secondPasses == 0 && target != PreferStandbyPass2
      ensures View() == Rewound(old(View()))
    {
      hide OnTarget, Rank, Resting;
      Rewind();
      FixBudget();
    }

    /** What may be spent on sockets, before the first. */
    ghost method FixBudget()
      requires Blank() && whichhost == -1 && tryNextHost && !tryNextAddr && status == NEEDED && secondPasses == 0
      requires target != PreferStandbyPass2
      modifies this`sockets, this`spent, this`budget
      ensures Resting() && budget == Most(target) && sockets == 0
    {
      hide OnTarget, Rank;
      sockets, spent, budget := 0, true, Most(target);
      MostIsRank(HostsLeft(), maxAddrs);
    }

    method Rewind()
      requires nconnhost > 0
      modifies this`whichhost, this`tryNextAddr, this`tryNextHost, this`status, this`target, this`secondPasses
      ensures whichhost == -1 && !tryNextAddr && tryNextHost && status == NEEDED && secondPasses == 0
      ensures target == if old(target) == PreferStandbyPass2 then PreferStandby else old(target)
      ensures Here() == Rewound(old(View())).at
    {
      whichhost := -1;
      tryNextAddr := false;
      tryNextHost := true;
      status := NEEDED;
      if target == PreferStandbyPass2 {
        target := PreferStandby;
      }
      secondPasses := 0;
    }

    /** At most four sockets for every address of every host, in one pass or two. */
    ghost function Most(t: Target): nat {
      (nconnhost + if t == PreferStandby || t == PreferStandbyPass2 then nconnhost else 0) * maxAddrs * 4
    }

    /** `connectDBComplete`, with what every wait ends in; a timeout gives the present address up. */
    method ConnectDBComplete(events: seq<Event>, timed: bool) returns (ok: bool, finished: bool)
      requires Resting() && forall e, i :: 0 <= e < |events| && 0 <= i < |events[e].answers| ==>
          Fits(events[e].answers[i])
      modifies this
      ensures Shaped() && sockets <= budget && budget == old(budget)
      ensures finished ==> Resting() && (ok <==> status == OK) && (!ok ==> status == BAD)
      ensures var c := CompleteOf(Brings(), old(View()), events, timed, if old(status) == BAD then Failed else Writing);
              View() == c.c && finished == c.finished && (ok <==> c.finished && c.r == Done)
    {
      hide Rank, Guarded, Asked, OnTarget, PollOf, Timed, View;
      var flag := if status == BAD then Failed else Writing;
      ghost var whole := CompleteOf(Brings(), View(), events, timed, flag);
      var e := 0;
      assert events[0..] == events;
      while flag != Failed && flag != Done
        invariant e <= |events| && Resting() && budget == old(budget)
        invariant (flag == Failed <==> status == BAD) && (flag == Done ==> status == OK)
        invariant CompleteOf(Brings(), View(), events[e..], timed, flag) == whole
        decreases |events| - e
      {
        if e == |events| {
          return false, false;
        }
        assert events[e..][0] == events[e] && events[e..][1..] == events[e + 1..];
        if events[e].wait == HardFailure {
          GiveUp();
          return false, true;
        }
        if timed && events[e].wait == TimedOut {
          TimeOut();
        }
        var r, done := Poll(events[e].answers);
        if !done {
          return false, false;
        }
        flag := r;
        e := e + 1;
      }
      return flag == Done, true;
    }

    /**
     Starting a connection and seeing it through. Whatever the system and the servers answer, the
     sockets are bounded and the standby requirement is dropped at most once; and a connection that
     comes about is encrypted as required and of the kind that was asked for.
     */
    method Connect(answers: seq<Answer>, events: seq<Event>, timed: bool) returns (ok: bool, finished: bool)
      requires Blank() && forall i :: 0 <= i < |answers| ==> Fits(answers[i])
      requires forall e, i :: 0 <= e < |events| && 0 <= i < |events[e].answers| ==> Fits(events[e].answers[i])
      modifies this
      ensures sockets <= Most(old(target)) && secondPasses <= 1
      ensures finished && ok ==> status == OK && OnTarget()
      ensures finished && ok && sslmode == SslRequire ==> sslInUse || gssenc || overUnix
      ensures finished && ok && gssencmode == GssRequire ==> gssenc && !overUnix
      ensures var p := ConnectOf(Brings(), old(View()), answers, events, timed);
              View() == p.c && finished == p.finished && (ok <==> p.finished && p.r == Done)
      ensures var t := Rewound(old(View())).at.target;
              forall h: nat ::
                ConnectReach.Seek(Brings(), t, h, 0, ConnectReach.Script(answers, events, timed)) <==>
                finished && ok && ConnectReach.AtTry(Brings(), t, Here(), h)
    {
      hide Rank, Left, Asked, Most, PollOf, CompleteOf, Dropped, Rewound;
      ghost var t := Rewound(View()).at.target;
      forall h: nat
        ensures ConnectReach.Won(Brings(), t, h, ConnectOf(Brings(), View(), answers, events, timed))
           <==> ConnectReach.Seek(Brings(), t, h, 0, ConnectReach.Script(answers, events, timed))
      {
        ConnectReach.ReachedExactly(Brings(), View(), answers, events, timed, h);
      }
      ok, finished := ConnectDBStart(answers);
      if !finished || !ok {
        return;
      }
      ok, finished := ConnectDBComplete(events, timed);
    }

    method TimeOut()
      requires Resting() && status != BAD
      modifies this`tryNextAddr, this`status
      ensures Resting() && status == NEEDED && tryNextAddr
      ensures View() == Timed(old(View()))
    {
      hide Rank, OnTarget;
      tryNextAddr := true;
      status := NEEDED;
    }

    /** The SSL fallback that can still be used: no mode has more than one. */
    predicate SslFallback()
      reads this
    {
      (sslmode == SslAllow && waitSslTry) || (sslmode == SslPrefer && allowSslTry)
    }

    ghost function Flags(): (n: nat)
      reads this
      ensures n <= 3
    {
      Flag(SslFallback()) + Flag(tryGss) + Flag(sendAppname)
    }
  }
}
