/** selectRoute, its two probers and dialDirect as code (route.go:27-184).  Each access to
    what the goroutines share is one step of the race; between two of them the other
    goroutines and the timeout may take any number of steps. */
module RouteGoroutines {
  import opened Common
  import opened RouteRace
  import opened RouteReasons
  import opened RouteTheorems

  datatype Role = Caller | SshProber | DirectProber

  /** What the caller meets outside, the probers aside: the client the pool would give it for the
      cached path, whether a dial through that succeeds, which addresses of the target answer, and
      whether a prober with a result is seen at the last look after the timeout. */
  datatype Outlook = Outlook(client: Option<Client>, connects: bool, answers: seq<bool>, arrived: bool)

  /** The cached path can serve the target. */
  predicate Serves(view: CacheView, out: Outlook) {
    if view.via == SSH then out.client.Some? && out.connects else true in out.answers
  }

  /** The timeout, if it comes, does not come before this step of the execution. */
  ghost predicate InTime(run: seq<State>, deadline: nat) {
    forall j :: 0 <= j < |run| - 1 && ExpiresAt(run, j) ==> deadline <= j
  }

  /** With the step from position `at` the caller gives up: on the second failure notice, or after a
      last look at which no sender was to be seen. */
  ghost predicate GivesUpAt(run: seq<State>, at: nat, arrived: bool)
    requires at + 1 < |run|
  {
    && run[at + 1].main == GivingUp
    && (|| (run[at].main == Waiting(1) && run[at].g.failedChan > 0)
        || (run[at].main == LastLook && run[at].g.ctxDone && (arrived ==> !SomeOffer(run[at]))))
  }

  lemma GivesUpStays(run: seq<State>, longer: seq<State>, at: nat, arrived: bool)
    requires run <= longer && at + 1 < |run| && GivesUpAt(run, at, arrived)
    ensures GivesUpAt(longer, at, arrived)
  {
    assert longer[at] == run[at] && longer[at + 1] == run[at + 1];
  }

  /** What a prober came to at position `at`: it offers what it got by whatever it needs, or fails for
      want of it or because the context has ended. */
  ghost predicate SshCameTo(run: seq<State>, at: nat, client: Option<Client>, connects: bool)
    requires at < |run|
  {
    if run[at].ssh.SshOffer? then client == Some(run[at].ssh.client) && connects
    else run[at].ssh.SshFail? && (client.None? || !connects || run[at].g.ctxDone)
  }

  ghost predicate DirectCameTo(run: seq<State>, at: nat, answers: seq<bool>)
    requires at < |run|
  {
    if run[at].direct.DirectOffer? then true in answers
    else run[at].direct.DirectFail? && (true !in answers || run[at].g.ctxDone)
  }

  class RouteSelection {
    const view: Option<CacheView>  // what the route cache says about the target
    ghost const deadline: nat      // the timeout comes after so many steps, or later
    var ctxDone: bool
    var failedChan: nat
    var next: Conn
    ghost var gets: multiset<Client>
    ghost var puts: multiset<Client>
    ghost var dials: multiset<Conn>
    ghost var closes: multiset<Conn>
    ghost var stored: seq<Stored>
    // where the goroutines are; a blocked sender's pc carries the value it offers
    var main: MainPc
    var ssh: SshPc
    var direct: DirectPc
    ghost var trace: seq<State>

    ghost function Now(): State
      reads this
    {
      State(Shared(view, ctxDone, failedChan, next, gets, puts, dials, closes, stored), main, ssh, direct)
    }

    ghost predicate Valid()
      reads this
    {
      IsRun(trace) && trace[|trace| - 1] == Now() && InTime(trace, deadline)
    }

    constructor (view: Option<CacheView>, ghost deadline: nat)
      ensures Valid() && trace == [Now()] && this.view == view && this.deadline == deadline
      ensures main == Lookup && ssh.SshNotStarted? && direct.DirectNotStarted?
    {
      this.view, this.deadline, ctxDone, failedChan, next := view, deadline, false, 0, 0;
      gets, puts, dials, closes, stored := multiset{}, multiset{}, multiset{}, multiset{}, [];
      main, ssh, direct := Lookup, SshNotStarted, DirectNotStarted;
      new;
      trace := [Now()];
    }

    /** What was just done is the next step of the execution, and not the timeout. */
    ghost method Record()
      requires IsRun(trace) && InTime(trace, deadline) && Next(trace[|trace| - 1], Now())
      requires var before := trace[|trace| - 1];
               main != before.main || ssh != before.ssh || direct != before.direct
      modifies this`trace
      ensures Valid() && trace == old(trace) + [Now()]
    {
      trace := trace + [Now()];
      forall j | 0 <= j < |trace| - 1 && ExpiresAt(trace, j) ensures deadline <= j {
        assert j < |old(trace)| - 1 && ExpiresAt(old(trace), j);
      }
      forall i | 0 <= i < |trace| - 1 ensures NextAt(trace, i) {
        if i < |old(trace)| - 1 {
          assert NextAt(old(trace), i);
        }
      }
    }

    /** The goroutine playing `me` has not moved. */
    twostate predicate Still(me: Role)
      reads this
    {
      match me
      case Caller => main == old(main)
      case SshProber => ssh == old(ssh)
      case DirectProber => direct == old(direct)
    }

    /** Any number of steps by the others; a prober that offers its result may have had it
        received. */
    method Interfere(ghost me: Role)
      requires Valid()
      modifies this
      ensures Valid() && old(trace) <= trace
      ensures Still(me) || (me.SshProber? && old(ssh.SshOffer?) && ssh.SshDone?)
                        || (me.DirectProber? && old(direct.DirectOffer?) && direct.DirectDone?)
    {
    }

    /** The caller blocked in its select: the probers go on until one of them has something for it, or
        the context ends. */
    method BlockCaller()
      requires Valid() && main.Waiting?
      modifies this
      ensures Valid() && old(trace) <= trace && main == old(main)
      ensures ctxDone || failedChan > 0 || ssh.SshOffer? || direct.DirectOffer?
    {
      Interfere(Caller);
      while !ctxDone && failedChan == 0 && !ssh.SshOffer? && !direct.DirectOffer?
        invariant Valid() && old(trace) <= trace && main == old(main)
        decreases SshRank(ssh) + DirectRank(direct)
      {
        SomebodyLeft();
        if !ssh.SshDone? {
          SshMoves();
        } else {
          DirectMoves();
        }
      }
    }

    /** While the caller waits for nothing yet, a prober is at work. */
    lemma SomebodyLeft()
      requires Valid() && main.Waiting? && !ctxDone && failedChan == 0
      ensures !ssh.SshDone? || !direct.DirectDone?
      ensures !ssh.SshNotStarted? && !direct.DirectNotStarted?
    {
      assert Reachable(Now());
      ReachableInv(Now());
    }

    /** A prober blocked with its result: the caller goes on until it takes it, or the context ends. */
    method BlockProber(me: Role)
      requires Valid() && ((me.SshProber? && ssh.SshOffer?) || (me.DirectProber? && direct.DirectOffer?))
      modifies this
      ensures Valid() && old(trace) <= trace
      ensures Still(me) || (me.SshProber? && ssh.SshDone?) || (me.DirectProber? && direct.DirectDone?)
      ensures Still(me) ==> ctxDone
    {
      Interfere(me);
      while !ctxDone && if me.SshProber? then ssh.SshOffer? else direct.DirectOffer?
        invariant Valid() && old(trace) <= trace
        invariant Still(me) || (me.SshProber? && ssh.SshDone?) || (me.DirectProber? && direct.DirectDone?)
        decreases MainRank(main)
      {
        CallerMoves();
      }
    }

    /** One step of the prober through SSH that needs nobody else. */
    method SshMoves()
      requires Valid() && !ssh.SshNotStarted? && !ssh.SshOffer? && !ssh.SshDone?
      modifies this
      ensures Valid() && old(trace) <= trace && main == old(main) && direct == old(direct)
      ensures SshRank(ssh) < SshRank(old(ssh))
    {
      if ssh.SshGet? {
        var _, _ := GetClient(SshProber, None);
      } else if ssh.SshDial? {
        var _, _ := DialThrough(SshProber, ssh.client, false);
      } else {
        SshEnds();
      }
    }

    method SshEnds()
      requires Valid() && (ssh.SshPutBack? || ssh.SshFail? || ssh.SshClose? || ssh.SshPut?)
      modifies this
      ensures Valid() && old(trace) <= trace && main == old(main) && direct == old(direct)
      ensures SshRank(ssh) < SshRank(old(ssh))
    {
      match ssh {
        case SshPutBack(client) => PutClient(SshProber, client);
        case SshFail => NoticeFailure(SshProber);
        case SshClose(conn, _) => CloseConn(SshProber, conn);
        case SshPut(client) => PutClient(SshProber, client);
        case _ => assert false;
      }
    }

    /** One step of the direct prober that needs nobody else. */
    method DirectMoves()
      requires Valid() && !direct.DirectNotStarted? && !direct.DirectOffer? && !direct.DirectDone?
      modifies this
      ensures Valid() && old(trace) <= trace && main == old(main) && ssh == old(ssh)
      ensures DirectRank(direct) < DirectRank(old(direct))
    {
      match direct {
        case DirectDial => var _ := DirectDialled(DirectProber, false);
        case DirectFail => NoticeFailure(DirectProber);
        case DirectClose(conn) => CloseConn(DirectProber, conn);
        case _ => assert false;
      }
    }

    /** With a prober's result on offer and no end of the context, the caller is at work. */
    lemma CallerAtWork()
      requires Valid() && !ctxDone && (ssh.SshOffer? || direct.DirectOffer?)
      ensures main.SpawnDirect? || main.Waiting? || main.Cancelling? || main.Storing? || main.Returning?
      ensures main.SpawnDirect? ==> direct.DirectNotStarted?
    {
      assert Reachable(Now());
      ReachableInv(Now());
    }

    /** One step of the caller while a prober offers its result. */
    method CallerMoves()
      requires Valid() && !ctxDone && (ssh.SshOffer? || direct.DirectOffer?)
      modifies this
      ensures Valid() && old(trace) <= trace && MainRank(main) < MainRank(old(main))
      ensures ssh == old(ssh) || (old(ssh.SshOffer?) && ssh.SshDone?)
      ensures old(direct.DirectOffer?) ==> direct == old(direct) || direct.DirectDone?
    {
      CallerAtWork();
      if main.SpawnDirect? {
        StartDirectProber();
      } else if main.Waiting? {
        var _ := ReceiveResult();
      } else {
        CallerFinishes();
      }
    }

    method CallerFinishes()
      requires Valid() && (main.Cancelling? || main.Storing? || main.Returning?)
      modifies this
      ensures Valid() && old(trace) <= trace && MainRank(main) < MainRank(old(main))
      ensures ssh == old(ssh) && direct == old(direct)
    {
      match main {
        case Cancelling(result) => Cancel(result);
        case Storing(result) => StoreRouteSuccess(result);
        case Returning(result) => Return(result);
        case _ => assert false;
      }
    }

    // ---- the caller ----

    /** A route was offered.  There is none only because the target failed a moment ago, because
        neither prober ever had one to offer, or because the timeout came; and then the caller gave up
        at `at`.  If the cached path can serve the target it does, unless the timeout came. */
    method SelectRoute(out: Outlook) returns (result: RouteResult, ghost at: nat)
      requires Valid() && main == Lookup
      modifies this
      ensures Valid() && old(trace) <= trace
      ensures main == Returned(result) && ctxDone
      ensures result == NO_ROUTE || Routable(result)
      ensures result != NO_ROUTE ==> WasOffered(trace, |trace| - 1, result)
      ensures result == NO_ROUTE && !FastFail(view) ==>
                && at + 1 < |trace| && GivesUpAt(trace, at, out.arrived)
                && (NeverOffered(trace, |trace| - 1) || deadline < |trace|)
      ensures FastFail(view) <==> view.Some? && view.value.failed && view.value.age < 30
      ensures FastFail(view) ==> result == NO_ROUTE
      ensures view.Some? && !FastFail(view) && Serves(view.value, out) && |trace| <= deadline ==>
                && result.conn.Some? && result.via == view.value.via
                && (result.via == SSH ==> result.sshClient == out.client)
      ensures stored == if result.conn.Some? then [Success(result.via)] else if FastFail(view) then [] else [Failure]
    {
      var found, cached := TryCached(out);
      at := 0;
      ghost var middle := trace;
      if found {
        result := cached;
      } else {
        result, at := Race(out.arrived);
      }
      middle := trace;
      Return(result);
      if result == NO_ROUTE && !FastFail(view) {
        GivesUpStays(middle, trace, at, out.arrived);
      }
      ReturnMeans(result);
    }

    /** The two go statements and the wait for what they bring. */
    method Race(arrived: bool) returns (result: RouteResult, ghost at: nat)
      requires Valid() && main == SpawnSsh
      modifies this
      ensures Valid() && old(trace) <= trace
      ensures main == Returning(result)
      ensures result == NO_ROUTE ==> at + 1 < |trace| && GivesUpAt(trace, at, arrived)
    {
      Spawn();
      result, at := Await(arrived);
    }

    /** What every execution that ends so has come through. */
    lemma ReturnMeans(result: RouteResult)
      requires Valid() && main == Returned(result)
      ensures result == NO_ROUTE || Routable(result)
      ensures result != NO_ROUTE ==> WasOffered(trace, |trace| - 1, result)
      ensures result == NO_ROUTE && !FastFail(view) ==> NeverOffered(trace, |trace| - 1) || deadline < |trace|
      ensures stored == if result.conn.Some? then [Success(result.via)] else if FastFail(view) then [] else [Failure]
    {
      assert Reachable(Now());
      ReturnedRouteIsWellFormed(Now());
      CallStoresItsOutcome(Now());
      if result != NO_ROUTE {
        ResultWasOffered(trace, |trace| - 1);
      } else if !FastFail(view) {
        NoRouteMeans(trace, |trace| - 1);
      }
    }

    /** Before the caller decides, only the timeout ends the context. */
    lemma EndedMeansExpired()
      requires Valid() && ctxDone && !Decided(main)
      ensures deadline < |trace|
    {
      EndsEarlyByTimeout(trace, |trace| - 1);
    }

    /** The negative cache and the cached path, route.go:37-91.  When neither decides, the
        race is next. */
    method TryCached(out: Outlook) returns (found: bool, result: RouteResult)
      requires Valid() && main == Lookup
      modifies this
      ensures Valid() && old(trace) <= trace
      ensures main == if found then Returning(result) else SpawnSsh
      ensures FastFail(view) ==> found && result == NO_ROUTE
      ensures !FastFail(view) && found ==> view.Some? && ByCachedPath(out, result)
      ensures !found ==> view.None? || !Serves(view.value, out) || deadline < |trace|
    {
      ReadCache();
      Interfere(Caller);
      result := NO_ROUTE;
      if FastFail(view) {
        return true, NO_ROUTE;
      }
      if view.None? {
        return false, NO_ROUTE;
      }
      found, result := TryAndStore(out);
    }

    method TryAndStore(out: Outlook) returns (found: bool, result: RouteResult)
      requires Valid() && view.Some? && main == if view.value.via == SSH then CachedGet else CachedDirect
      modifies this
      ensures Valid() && old(trace) <= trace
      ensures main == if found then Returning(result) else SpawnSsh
      ensures if found then ByCachedPath(out, result) else !Serves(view.value, out) || deadline < |trace|
    {
      found, result := TryCachedMethod(out);
      Interfere(Caller);
      if found {
        StoreRouteSuccess(result);
      }
    }

    /** The result of the cached method, with the client the pool gave. */
    predicate ByCachedPath(out: Outlook, result: RouteResult) {
      && view.Some? && result.conn.Some? && result.via == view.value.via
      && (result.via == SSH ==> out.client.Some? && result.sshClient == out.client)
    }

    /** The method that worked last time, route.go:56-89. */
    method TryCachedMethod(out: Outlook) returns (found: bool, result: RouteResult)
      requires Valid() && view.Some? && main == if view.value.via == SSH then CachedGet else CachedDirect
      modifies this
      ensures Valid() && old(trace) <= trace
      ensures main == if found then CachedStore(result) else SpawnSsh
      ensures if found then ByCachedPath(out, result) else !Serves(view.value, out) || deadline < |trace|
    {
      result := NO_ROUTE;
      match view.value.via {
        case SSH =>
          found, result := TryCachedSsh(out);
        case Direct =>
          var conn := DialDirect(Caller, out.answers);
          found := conn.Some?;
          if found {
            result := DirectResult(conn.value);
          } else if ctxDone {
            EndedMeansExpired();
          }
      }
    }

    method ReadCache()
      requires Valid() && main == Lookup
      modifies this`main, this`trace
      ensures Valid() && trace == old(trace) + [Now()]
      ensures main == if FastFail(view) then Returning(NO_ROUTE)
                      else if view == None then SpawnSsh
                      else if view.value.via == SSH then CachedGet else CachedDirect
    {
      ghost var before := Now();
      main := if FastFail(view) then Returning(NO_ROUTE)
              else if view == None then SpawnSsh
              else if view.value.via == SSH then CachedGet else CachedDirect;
      assert CachedStep(before.g, before.main, Now().g, main);
      assert ByMain(before, Now());
      Record();
    }

    method TryCachedSsh(out: Outlook) returns (found: bool, result: RouteResult)
      requires Valid() && main == CachedGet
      modifies this
      ensures Valid() && old(trace) <= trace
      ensures main == if found then CachedStore(result) else SpawnSsh
      ensures if found then result.conn.Some? && result.via == SSH && result.sshClient == out.client && out.client.Some?
              else out.client.None? || !out.connects || deadline < |trace|
    {
      var got, client := GetClient(Caller, out.client);
      if !got && ctxDone {
        EndedMeansExpired();
      }
      Interfere(Caller);
      if !got {
        return false, NO_ROUTE;
      }
      found, result := DialCached(client, out.connects);
    }

    method DialCached(client: Client, connects: bool) returns (found: bool, result: RouteResult)
      requires Valid() && main == CachedDial(client)
      modifies this
      ensures Valid() && old(trace) <= trace
      ensures main == if found then CachedStore(result) else SpawnSsh
      ensures if found then result.conn.Some? && result.via == SSH && result.sshClient == Some(client)
              else !connects || deadline < |trace|
    {
      var dialled, conn := DialThrough(Caller, client, connects);
      if !dialled && ctxDone {
        EndedMeansExpired();
      }
      Interfere(Caller);
      if !dialled {
        PutClient(Caller, client);
        return false, NO_ROUTE;
      }
      return true, SshResult(conn, client);
    }

    method StoreRouteSuccess(result: RouteResult)
      requires Valid() && (main == CachedStore(result) || main == Storing(result))
      modifies this`main, this`stored, this`trace
      ensures Valid() && trace == old(trace) + [Now()]
      ensures main == Returning(result) && stored == old(stored) + [Success(result.via)]
    {
      ghost var before := Now();
      stored, main := stored + [Success(result.via)], Returning(result);
      assert CachedStep(before.g, before.main, Now().g, main) || WaitStep(before.g, before.main, Now().g, main);
      assert ByMain(before, Now());
      Record();
    }

    /** The two go statements. */
    method Spawn()
      requires Valid() && main == SpawnSsh
      modifies this
      ensures Valid() && old(trace) <= trace
      ensures main == Waiting(0)
    {
      StartSshProber();
      Interfere(Caller);
      StartDirectProber();
    }

    method StartSshProber()
      requires Valid() && main == SpawnSsh
      modifies this`main, this`ssh, this`trace
      ensures Valid() && trace == old(trace) + [Now()]
      ensures main == SpawnDirect && ssh == SshGet
    {
      ghost var before := Now();
      main, ssh := SpawnDirect, SshGet;
      assert Spawns(before, Now());
      Record();
    }

    method StartDirectProber()
      requires Valid() && main == SpawnDirect
      modifies this`main, this`direct, this`trace
      ensures Valid() && trace == old(trace) + [Now()]
      ensures main == Waiting(0) && direct == DirectDial
    {
      ghost var before := Now();
      main, direct := Waiting(0), DirectDial;
      assert Spawns(before, Now());
      Record();
    }

    /** The select loop, route.go:135-161.  Without a result, `at` is where it gave up. */
    method Await(arrived: bool) returns (result: RouteResult, ghost at: nat)
      requires Valid() && main == Waiting(0)
      modifies this
      ensures Valid() && old(trace) <= trace
      ensures main == Returning(result)
      ensures result == NO_ROUTE ==> at + 1 < |trace| && GivesUpAt(trace, at, arrived)
    {
      var failCount, decided := 0, false;
      result, at := NO_ROUTE, 0;
      while !decided
        invariant Valid() && old(trace) <= trace
        invariant failCount < 2
        invariant main == if decided then Returning(result) else Waiting(failCount)
        invariant decided && result == NO_ROUTE ==> at + 1 < |trace| && GivesUpAt(trace, at, arrived)
        decreases if decided then 0 else 2 - failCount
      {
        decided, result, failCount, at := AwaitOne(failCount, arrived);
      }
    }

    /** One turn: whatever is ready. */
    method AwaitOne(failCount: nat, arrived: bool)
      returns (decided: bool, result: RouteResult, failures: nat, ghost at: nat)
      requires Valid() && failCount < 2 && main == Waiting(failCount)
      modifies this
      ensures Valid() && old(trace) <= trace
      ensures if decided then main == Returning(result) && failures == failCount
              else main == Waiting(failures) && failures == failCount + 1 < 2
      ensures decided && result == NO_ROUTE ==> at + 1 < |trace| && GivesUpAt(trace, at, arrived)
    {
      BlockCaller();
      failures, at := failCount, 0;
      if {
        case ssh.SshOffer? || direct.DirectOffer? =>
          result := ReceiveAndStore();
          decided := true;
        case failedChan > 0 =>
          decided, at := CountFailure(failCount, arrived);
          result, failures := NO_ROUTE, if decided then failCount else failCount + 1;
        case ctxDone =>
          result, at := TimedOut(failCount, arrived);
          decided := true;
      }
    }

    /** The second failure decides. */
    method CountFailure(failCount: nat, ghost arrived: bool) returns (decided: bool, ghost at: nat)
      requires Valid() && failCount < 2 && main == Waiting(failCount) && failedChan > 0
      modifies this
      ensures Valid() && old(trace) <= trace
      ensures decided <==> failCount + 1 >= 2
      ensures main == if decided then Returning(NO_ROUTE) else Waiting(failCount + 1)
      ensures decided ==> at + 1 < |trace| && GivesUpAt(trace, at, arrived)
    {
      at := |trace| - 1;
      ReceiveFailure(failCount);
      decided := failCount + 1 >= 2;
      if decided {
        ghost var early := trace;
        StoreFailureAfterWhile();
        GivesUpStays(early, trace, at, arrived);
      }
    }

    method StoreFailureAfterWhile()
      requires Valid() && main == GivingUp
      modifies this
      ensures Valid() && old(trace) <= trace && main == Returning(NO_ROUTE)
    {
      Interfere(Caller);
      StoreRouteFailure();
    }

    method ReceiveAndStore() returns (result: RouteResult)
      requires Valid() && main.Waiting? && (ssh.SshOffer? || direct.DirectOffer?)
      modifies this
      ensures Valid() && old(trace) <= trace
      ensures main == Returning(result) && result != NO_ROUTE
    {
      result := ReceiveResult();
      Interfere(Caller);
      Cancel(result);
      Interfere(Caller);
      StoreRouteSuccess(result);
    }

    /** One rendezvous; if both offer, either may be taken. */
    method ReceiveResult() returns (result: RouteResult)
      requires Valid() && Receiving(main) && (ssh.SshOffer? || direct.DirectOffer?)
      modifies this`main, this`ssh, this`direct, this`trace
      ensures Valid() && trace == old(trace) + [Now()]
      ensures main == Received(old(main), result)
      ensures || (old(ssh.SshOffer?) && ssh.SshDone? && direct == old(direct)
                  && result == SshResult(old(ssh).conn, old(ssh).client))
              || (old(direct.DirectOffer?) && direct.DirectDone? && ssh == old(ssh)
                  && result == DirectResult(old(direct).conn))
    {
      ghost var before := Now();
      if {
        case ssh.SshOffer? =>
          result := SshResult(ssh.conn, ssh.client);
          main, ssh := Received(main, result), SshDone;
        case direct.DirectOffer? =>
          result := DirectResult(direct.conn);
          main, direct := Received(main, result), DirectDone;
      }
      assert HandsOver(before, Now());
      Record();
    }

    /** Between taking the context's end and giving up: one more look at the channel, which sees a
        sender that has arrived. */
    method TimedOut(failCount: nat, arrived: bool) returns (result: RouteResult, ghost at: nat)
      requires Valid() && main == Waiting(failCount) && ctxDone
      modifies this
      ensures Valid() && old(trace) <= trace
      ensures main == Returning(result)
      ensures result == NO_ROUTE ==> at + 1 < |trace| && GivesUpAt(trace, at, arrived)
    {
      LookAgain();
      at := |trace| - 1;
      if arrived && (ssh.SshOffer? || direct.DirectOffer?) {
        result := TakeLate();
      } else {
        GiveUp(arrived);
        result := NO_ROUTE;
      }
    }

    lemma OnlyAfterTheEnd()
      requires Valid() && main == LastLook
      ensures ctxDone
    {
      assert Reachable(Now());
      ReachableInv(Now());
    }

    method LookAgain()
      requires Valid() && main.Waiting? && ctxDone
      modifies this
      ensures Valid() && old(trace) <= trace && main == LastLook
    {
      MoveMain(LastLook);
      Interfere(Caller);
    }

    method GiveUp(ghost arrived: bool)
      requires Valid() && main == LastLook && (arrived ==> !ssh.SshOffer? && !direct.DirectOffer?)
      modifies this
      ensures Valid() && old(trace) <= trace && |old(trace)| < |trace|
      ensures main == Returning(NO_ROUTE)
      ensures GivesUpAt(trace, |old(trace)| - 1, arrived)
    {
      OnlyAfterTheEnd();
      ghost var at := |trace| - 1;
      MoveMain(GivingUp);
      ghost var early := trace;
      StoreFailureAfterWhile();
      GivesUpStays(early, trace, at, arrived);
    }

    method TakeLate() returns (result: RouteResult)
      requires Valid() && main == LastLook && (ssh.SshOffer? || direct.DirectOffer?)
      modifies this
      ensures Valid() && old(trace) <= trace
      ensures main == Returning(result) && result != NO_ROUTE
    {
      result := ReceiveResult();
      Interfere(Caller);
      StoreRouteSuccess(result);
    }

    method MoveMain(pc: MainPc)
      requires Valid() && ((main.Waiting? && ctxDone && pc == LastLook) || (main == LastLook && pc == GivingUp))
      modifies this`main, this`trace
      ensures Valid() && trace == old(trace) + [Now()]
      ensures main == pc
    {
      ghost var before := Now();
      main := pc;
      assert WaitStep(before.g, before.main, Now().g, main);
      assert ByMain(before, Now());
      Record();
    }

    method ReceiveFailure(failCount: nat)
      requires Valid() && main == Waiting(failCount) && failedChan > 0
      modifies this`main, this`failedChan, this`trace
      ensures Valid() && trace == old(trace) + [Now()]
      ensures failedChan == old(failedChan) - 1
      ensures main == if failCount + 1 >= 2 then GivingUp else Waiting(failCount + 1)
    {
      ghost var before := Now();
      failedChan, main := failedChan - 1, if failCount + 1 >= 2 then GivingUp else Waiting(failCount + 1);
      assert WaitStep(before.g, before.main, Now().g, main);
      assert ByMain(before, Now());
      Record();
    }

    method StoreRouteFailure()
      requires Valid() && main == GivingUp
      modifies this`main, this`stored, this`trace
      ensures Valid() && trace == old(trace) + [Now()]
      ensures main == Returning(NO_ROUTE) && stored == old(stored) + [Failure]
    {
      ghost var before := Now();
      stored, main := stored + [Failure], Returning(NO_ROUTE);
      assert WaitStep(before.g, before.main, Now().g, main);
      assert ByMain(before, Now());
      Record();
    }

    method Cancel(result: RouteResult)
      requires Valid() && main == Cancelling(result)
      modifies this`main, this`ctxDone, this`trace
      ensures Valid() && trace == old(trace) + [Now()]
      ensures main == Storing(result) && ctxDone
    {
      ghost var before := Now();
      ctxDone, main := true, Storing(result);
      assert WaitStep(before.g, before.main, Now().g, main);
      assert ByMain(before, Now());
      Record();
    }

    /** The deferred cancel. */
    method Return(result: RouteResult)
      requires Valid() && main == Returning(result)
      modifies this`main, this`ctxDone, this`trace
      ensures Valid() && trace == old(trace) + [Now()]
      ensures main == Returned(result) && ctxDone
    {
      ghost var before := Now();
      ctxDone, main := true, Returned(result);
      assert WaitStep(before.g, before.main, Now().g, main);
      assert ByMain(before, Now());
      Record();
    }

    // ---- the pool and the dialler, for whoever asks ----

    /** pool.Get, which fails once the context has ended. */
    method GetClient(me: Role, offered: Option<Client>) returns (got: bool, client: Client)
      requires Valid() && ((me.Caller? && main == CachedGet) || (me.SshProber? && ssh == SshGet))
      modifies this`main, this`ssh, this`gets, this`trace
      ensures Valid() && trace == old(trace) + [Now()]
      ensures ctxDone == old(ctxDone) && (got <==> offered.Some? && !ctxDone) && (got ==> offered == Some(client))
      ensures gets == if got then old(gets) + multiset{client} else old(gets)
      ensures me.Caller? ==> main == if got then CachedDial(client) else SpawnSsh
      ensures me.SshProber? ==> ssh == (if got then SshDial(client) else SshFail) && main == old(main)
    {
      ghost var before := Now();
      got, client := offered.Some? && !ctxDone, 0;
      if got {
        client := offered.value;
        gets := gets + multiset{client};
      }
      if me.Caller? {
        main := if got then CachedDial(client) else SpawnSsh;
        assert CachedStep(before.g, before.main, Now().g, main);
        assert ByMain(before, Now());
      } else {
        ssh := if got then SshDial(client) else SshFail;
        assert BySsh(before, Now());
      }
      Record();
    }

    /** sshClient.DialContext, which fails once the context has ended. */
    method DialThrough(me: Role, client: Client, connects: bool) returns (ok: bool, conn: Conn)
      requires Valid() && ((me.Caller? && main == CachedDial(client)) || (me.SshProber? && ssh == SshDial(client)))
      modifies this`main, this`ssh, this`next, this`dials, this`trace
      ensures Valid() && trace == old(trace) + [Now()]
      ensures ctxDone == old(ctxDone) && (ok <==> connects && !ctxDone)
      ensures ok ==> conn == old(next) && dials == old(dials) + multiset{conn}
      ensures me.Caller? ==> main == if ok then CachedStore(SshResult(conn, client)) else CachedPut(client)
      ensures me.SshProber? ==> ssh == (if ok then SshOffer(conn, client) else SshPutBack(client)) && main == old(main)
      ensures !ok ==> dials == old(dials)
    {
      ghost var before := Now();
      ok, conn := connects && !ctxDone, next;
      if ok {
        next, dials := next + 1, dials + multiset{next};
      }
      if me.Caller? {
        main := if ok then CachedStore(SshResult(conn, client)) else CachedPut(client);
        assert CachedStep(before.g, before.main, Now().g, main);
        assert ByMain(before, Now());
      } else {
        ssh := if ok then SshOffer(conn, client) else SshPutBack(client);
        assert BySsh(before, Now());
      }
      Record();
    }

    /** pool.Put. */
    method PutClient(me: Role, client: Client)
      requires Valid()
      requires || (me.Caller? && main == CachedPut(client))
               || (me.SshProber? && (ssh == SshPutBack(client) || ssh == SshPut(client)))
      modifies this`main, this`ssh, this`puts, this`trace
      ensures Valid() && trace == old(trace) + [Now()]
      ensures puts == old(puts) + multiset{client}
      ensures me.Caller? ==> main == SpawnSsh
      ensures me.SshProber? ==> ssh == (if old(ssh).SshPutBack? then SshFail else SshDone) && main == old(main)
    {
      ghost var before := Now();
      puts := puts + multiset{client};
      if me.Caller? {
        main := SpawnSsh;
        assert CachedStep(before.g, before.main, Now().g, main);
        assert ByMain(before, Now());
      } else {
        ssh := if ssh.SshPutBack? then SshFail else SshDone;
        assert BySsh(before, Now());
      }
      Record();
    }

    /** dialDirect, route.go:167-184: one address after the other, until one answers or the
        context has ended.  `answers` says of each whether it would answer. */
    method DialDirect(me: Role, answers: seq<bool>) returns (conn: Option<Conn>)
      requires Valid() && ((me.Caller? && main == CachedDirect) || (me.DirectProber? && direct == DirectDial))
      modifies this
      ensures Valid() && old(trace) < trace
      ensures conn.Some? ==> true in answers
      ensures conn.None? ==> ctxDone || true !in answers
      ensures me.Caller? ==> main == if conn.Some? then CachedStore(DirectResult(conn.value)) else SpawnSsh
      ensures me.DirectProber? ==> direct == if conn.Some? then DirectOffer(conn.value) else DirectFail
    {
      var tried := 0;
      var answered := false;
      while tried < |answers| && !answered
        invariant tried <= |answers| && Valid() && old(trace) <= trace && Still(me)
        invariant true !in answers[..tried] && (answered ==> tried < |answers| && answers[tried])
        decreases |answers| - tried, !answered
      {
        Interfere(me);
        if ctxDone {
          break;
        }
        answered := answers[tried];
        if !answered {
          assert answers[..tried + 1] == answers[..tried] + [answers[tried]];
          tried := tried + 1;
        }
      }
      assert tried == |answers| ==> answers[..tried] == answers;
      conn := DirectDialled(me, answered);
    }

    method DirectDialled(me: Role, ok: bool) returns (conn: Option<Conn>)
      requires Valid() && ((me.Caller? && main == CachedDirect) || (me.DirectProber? && direct == DirectDial))
      modifies this`main, this`direct, this`next, this`dials, this`trace
      ensures Valid() && trace == old(trace) + [Now()]
      ensures conn == if ok then Some(old(next)) else None
      ensures dials == if ok then old(dials) + multiset{old(next)} else old(dials)
      ensures me.Caller? ==> main == if ok then CachedStore(DirectResult(conn.value)) else SpawnSsh
      ensures me.DirectProber? ==> direct == (if ok then DirectOffer(conn.value) else DirectFail) && main == old(main)
    {
      ghost var before := Now();
      conn := None;
      if ok {
        conn, next, dials := Some(next), next + 1, dials + multiset{next};
      }
      if me.Caller? {
        main := if ok then CachedStore(DirectResult(conn.value)) else SpawnSsh;
        assert CachedStep(before.g, before.main, Now().g, main);
        assert ByMain(before, Now());
      } else {
        direct := if ok then DirectOffer(conn.value) else DirectFail;
        assert ByDirect(before, Now());
      }
      Record();
    }

    // ---- the probers ----

    /** route.go:94-117.  `at` is where it is known what it came to. */
    method ProbeSsh(offered: Option<Client>, connects: bool) returns (ghost at: nat)
      requires Valid() && ssh == SshGet
      modifies this
      ensures Valid() && old(trace) <= trace
      ensures ssh == SshDone
      ensures |old(trace)| <= at < |trace| && SshCameTo(trace, at, offered, connects)
    {
      var got, client := GetClient(SshProber, offered);
      at := |trace| - 1;
      if got {
        at := DialSsh(client, offered, connects);
      } else {
        ghost var early := trace;
        FailAfterWhile(SshProber);
        CameToStays(early, trace, at);
      }
    }

    method FailAfterWhile(me: Role)
      requires Valid() && ((me.SshProber? && ssh == SshFail) || (me.DirectProber? && direct == DirectFail))
      modifies this
      ensures Valid() && old(trace) <= trace
      ensures (me.SshProber? ==> ssh == SshDone) && (me.DirectProber? ==> direct == DirectDone)
    {
      Interfere(me);
      NoticeFailure(me);
    }

    method DialSsh(client: Client, ghost offered: Option<Client>, connects: bool) returns (ghost at: nat)
      requires Valid() && ssh == SshDial(client) && offered == Some(client)
      modifies this
      ensures Valid() && old(trace) <= trace
      ensures ssh == SshDone
      ensures |old(trace)| <= at < |trace| && SshCameTo(trace, at, offered, connects)
    {
      Interfere(SshProber);
      var ok, conn := DialThrough(SshProber, client, connects);
      at := |trace| - 1;
      ghost var early := trace;
      if ok {
        OfferSsh(conn, client);
        CameToStays(early, trace, at);
      } else {
        at := GiveUpSsh(client, offered, connects);
      }
    }

    /** The dial failed. */
    method GiveUpSsh(client: Client, ghost offered: Option<Client>, ghost connects: bool) returns (ghost at: nat)
      requires Valid() && ssh == SshPutBack(client) && (!connects || ctxDone)
      modifies this
      ensures Valid() && old(trace) <= trace
      ensures ssh == SshDone
      ensures |old(trace)| <= at < |trace| && SshCameTo(trace, at, offered, connects)
    {
      InterfereOn(SshProber);
      PutClient(SshProber, client);
      at := |trace| - 1;
      ghost var early := trace;
      FailAfterWhile(SshProber);
      CameToStays(early, trace, at);
    }

    /** A context that has ended stays so. */
    method InterfereOn(ghost me: Role)
      requires Valid() && !(me.SshProber? && ssh.SshOffer?) && !(me.DirectProber? && direct.DirectOffer?)
      modifies this
      ensures Valid() && old(trace) <= trace && Still(me) && (old(ctxDone) ==> ctxDone)
    {
      Interfere(me);
      if old(ctxDone) {
        EndedStays(trace, |old(trace)| - 1, |trace| - 1);
      }
    }

    lemma CameToStays(run: seq<State>, longer: seq<State>, at: nat)
      requires run <= longer && at < |run|
      ensures longer[at] == run[at]
    {
    }

    /** The select between handing the result over and the end of the context. */
    method OfferSsh(conn: Conn, client: Client)
      requires Valid() && ssh == SshOffer(conn, client)
      modifies this
      ensures Valid() && old(trace) <= trace
      ensures ssh == SshDone
    {
      BlockProber(SshProber);
      if ssh.SshDone? {
        return;
      }
      MoveSsh(SshClose(conn, client));
      CloseAndPut(conn, client);
    }

    method CloseAndPut(conn: Conn, client: Client)
      requires Valid() && ssh == SshClose(conn, client)
      modifies this
      ensures Valid() && old(trace) <= trace && ssh == SshDone
    {
      Interfere(SshProber);
      CloseConn(SshProber, conn);
      Interfere(SshProber);
      PutClient(SshProber, client);
    }

    method MoveSsh(pc: SshPc)
      requires Valid() && ssh.SshOffer? && ctxDone && pc == SshClose(ssh.conn, ssh.client)
      modifies this`ssh, this`trace
      ensures Valid() && trace == old(trace) + [Now()]
      ensures ssh == pc
    {
      ghost var before := Now();
      ssh := pc;
      assert BySsh(before, Now());
      Record();
    }

    method CloseConn(me: Role, conn: Conn)
      requires Valid()
      requires (me.SshProber? && ssh.SshClose? && ssh.conn == conn) || (me.DirectProber? && direct == DirectClose(conn))
      modifies this`ssh, this`direct, this`closes, this`trace
      ensures Valid() && trace == old(trace) + [Now()]
      ensures closes == old(closes) + multiset{conn}
      ensures me.SshProber? ==> ssh == SshPut(old(ssh).client) && direct == old(direct)
      ensures me.DirectProber? ==> direct == DirectDone && ssh == old(ssh)
    {
      ghost var before := Now();
      closes := closes + multiset{conn};
      if me.SshProber? {
        ssh := SshPut(ssh.client);
        assert BySsh(before, Now());
      } else {
        direct := DirectDone;
        assert ByDirect(before, Now());
      }
      Record();
    }

    /** failedChan <- struct{}{}; there is always room. */
    method NoticeFailure(me: Role)
      requires Valid() && ((me.SshProber? && ssh == SshFail) || (me.DirectProber? && direct == DirectFail))
      modifies this`ssh, this`direct, this`failedChan, this`trace
      ensures Valid() && trace == old(trace) + [Now()]
      ensures old(failedChan) < FAILED_CHAN_CAP && failedChan == old(failedChan) + 1
      ensures me.SshProber? ==> ssh == SshDone && direct == old(direct)
      ensures me.DirectProber? ==> direct == DirectDone && ssh == old(ssh)
    {
      assert Reachable(Now());
      FailureNoticesFit(Now());
      ghost var before := Now();
      failedChan := failedChan + 1;
      if me.SshProber? {
        ssh := SshDone;
        assert BySsh(before, Now());
      } else {
        direct := DirectDone;
        assert ByDirect(before, Now());
      }
      Record();
    }

    /** route.go:119-132.  `at` is where it is known what it came to. */
    method ProbeDirect(answers: seq<bool>) returns (ghost at: nat)
      requires Valid() && direct == DirectDial
      modifies this
      ensures Valid() && old(trace) <= trace
      ensures direct == DirectDone
      ensures |old(trace)| <= at < |trace| && DirectCameTo(trace, at, answers)
    {
      var conn := DialDirect(DirectProber, answers);
      at := |trace| - 1;
      ghost var early := trace;
      if conn == None {
        FailAfterWhile(DirectProber);
      } else {
        OfferDirect(conn.value);
      }
      CameToStays(early, trace, at);
    }

    method OfferDirect(conn: Conn)
      requires Valid() && direct == DirectOffer(conn)
      modifies this
      ensures Valid() && old(trace) <= trace
      ensures direct == DirectDone
    {
      BlockProber(DirectProber);
      if direct.DirectDone? {
        return;
      }
      MoveDirect(DirectClose(conn));
      Interfere(DirectProber);
      CloseConn(DirectProber, conn);
    }

    method MoveDirect(pc: DirectPc)
      requires Valid() && direct.DirectOffer? && ctxDone && pc == DirectClose(direct.conn)
      modifies this`direct, this`trace
      ensures Valid() && trace == old(trace) + [Now()]
      ensures direct == pc
    {
      ghost var before := Now();
      direct := pc;
      assert ByDirect(before, Now());
      Record();
    }
  }
}
