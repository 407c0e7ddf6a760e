/** What holds of every execution of the route race. */
module RouteTheorems {
  import opened Common
  import opened RouteRace

  ghost predicate Reachable(s: State) {
    exists run :: IsRun(run) && run[|run| - 1] == s
  }

  lemma InitInv(s: State)
    requires Init(s)
    ensures Inv(s)
  {
  }

  lemma {:induction false} RunsKeepInv(run: seq<State>, i: nat)
    requires IsRun(run) && i < |run|
    ensures Inv(run[i])
  {
    if i == 0 {
      InitInv(run[0]);
    } else {
      RunsKeepInv(run, i - 1);
      assert NextAt(run, i - 1);
      NextKeepsInv(run[i - 1], run[i]);
    }
  }

  lemma ReachableInv(s: State)
    requires Reachable(s)
    ensures Inv(s)
  {
    var run :| IsRun(run) && run[|run| - 1] == s;
    RunsKeepInv(run, |run| - 1);
  }

  ghost predicate Ended(s: State) {
    && s.main.Returned?
    && (s.ssh.SshDone? || s.ssh.SshNotStarted?)
    && (s.direct.DirectDone? || s.direct.DirectNotStarted?)
  }

  function AsMultiset(held: Option<nat>): multiset<nat> {
    if held.Some? then multiset{held.value} else multiset{}
  }

  /** Once all three goroutines have ended, every client obtained from the pool is in the
      returned result or was put back, once for each time it was obtained; every connection
      dialled is in the result or was closed, once. */
  lemma EndedHandsOverOrReleases(s: State)
    requires Reachable(s) && Ended(s)
    ensures s.g.gets == s.g.puts + AsMultiset(s.main.result.sshClient)
    ensures s.g.dials == s.g.closes + AsMultiset(s.main.result.conn)
    ensures forall c: Conn :: s.g.closes[c] <= 1
  {
    ReachableInv(s);
    forall c: Client ensures s.g.gets[c] == (s.g.puts + AsMultiset(s.main.result.sshClient))[c] {
      assert s.g.gets[c] == s.g.puts[c] + One(s.main.result.sshClient, c);
    }
    forall c: Conn ensures s.g.dials[c] == (s.g.closes + AsMultiset(s.main.result.conn))[c] {
      assert s.g.dials[c] == s.g.closes[c] + One(s.main.result.conn, c);
    }
    forall c: Conn ensures s.g.closes[c] <= 1 {
      assert s.g.dials[c] <= 1;
    }
  }

  /** A returned route has method SSH exactly when it carries a client. */
  lemma ReturnedRouteIsWellFormed(s: State)
    requires Reachable(s) && s.main.Returned?
    ensures var r := s.main.result;
            r == NO_ROUTE || Routable(r)
  {
    ReachableInv(s);
  }

  /** One entry is written per call: the method of the returned route, or a failure; and
      none at all exactly when the negative cache answers. */
  lemma CallStoresItsOutcome(s: State)
    requires Reachable(s) && s.main.Returned?
    ensures s.g.stored == if s.main.result.conn.Some? then [Success(s.main.result.via)]
                          else if FastFail(s.g.view) then [] else [Failure]
    ensures FastFail(s.g.view) ==> s.main.result == NO_ROUTE && s.g.gets == multiset{} && s.g.dials == multiset{}
  {
    ReachableInv(s);
    var run :| IsRun(run) && run[|run| - 1] == s;
    if FastFail(s.g.view) {
      FastFailTouchesNothing(run, |run| - 1);
    }
  }

  lemma {:induction false} FastFailTouchesNothing(run: seq<State>, i: nat)
    requires IsRun(run) && i < |run| && FastFail(run[i].g.view)
    ensures run[i].g.gets == multiset{} && run[i].g.dials == multiset{}
    ensures run[i].main in {Lookup, Returning(NO_ROUTE), Returned(NO_ROUTE)}
    ensures run[i].ssh.SshNotStarted? && run[i].direct.DirectNotStarted?
  {
    if i > 0 {
      assert NextAt(run, i - 1);
      ViewStays(run[i - 1], run[i]);
      FastFailTouchesNothing(run, i - 1);
    }
  }

  lemma ViewStays(s: State, s': State)
    requires Next(s, s')
    ensures s'.g.view == s.g.view
  {
  }

  /** A failure notice never blocks its sender. */
  lemma FailureNoticesFit(s: State)
    requires Reachable(s)
    ensures s.g.failedChan <= FAILED_CHAN_CAP
    ensures s.ssh.SshFail? || s.direct.DirectFail? ==> s.g.failedChan < FAILED_CHAN_CAP
  {
    ReachableInv(s);
  }

  /** When the second failure notice arrives both probers have ended and hold nothing. */
  lemma SecondFailureMeansBothEnded(s: State, s': State)
    requires Reachable(s) && ByMain(s, s') && s.main.Waiting? && s'.main.GivingUp?
    ensures s.ssh.SshDone? && s.direct.DirectDone?
    ensures s.g.gets == s.g.puts && s.g.dials == s.g.closes
  {
    ReachableInv(s);
    forall c: Client ensures s.g.gets[c] == s.g.puts[c] {
      assert s.g.gets[c] == s.g.puts[c] + One(None, c) + One(None, c);
    }
    forall c: Conn ensures s.g.dials[c] == s.g.closes[c] {
      assert s.g.dials[c] == s.g.closes[c] + One(None, c) + One(None, c) + One(None, c);
    }
  }

  /** No deadlock: until all three have ended one of them can move, the timeout aside. */
  lemma NoDeadlock(s: State)
    requires Reachable(s) && !Ended(s)
    ensures exists s' :: Progress(s, s')
  {
    ReachableInv(s);
    if !s.ssh.SshDone? && !s.ssh.SshNotStarted? && !s.ssh.SshOffer? {
      SshCanMove(s);
    } else if !s.direct.DirectDone? && !s.direct.DirectNotStarted? && !s.direct.DirectOffer? {
      DirectCanMove(s);
    } else if s.g.ctxDone && s.ssh.SshOffer? {
      var moved := s.(ssh := SshClose(s.ssh.conn, s.ssh.client));
      assert BySsh(s, moved) && Progress(s, moved);
    } else if s.g.ctxDone && s.direct.DirectOffer? {
      var moved := s.(direct := DirectClose(s.direct.conn));
      assert ByDirect(s, moved) && Progress(s, moved);
    } else if s.main.Waiting? {
      WaitingCanMove(s);
    } else {
      MainCanMove(s);
    }
  }

  lemma SshCanMove(s: State)
    requires InStep(s) && !s.ssh.SshDone? && !s.ssh.SshNotStarted? && !s.ssh.SshOffer?
    ensures exists s' :: Progress(s, s')
  {
    var pc, g := s.ssh, s.g;
    var moved :=
      if pc.SshGet? then s.(ssh := SshFail)
      else if pc.SshDial? then s.(ssh := SshPutBack(pc.client))
      else if pc.SshPutBack? then s.(g := g.(puts := g.puts + multiset{pc.client}), ssh := SshFail)
      else if pc.SshFail? then s.(g := g.(failedChan := g.failedChan + 1), ssh := SshDone)
      else if pc.SshClose? then s.(g := g.(closes := g.closes + multiset{pc.conn}), ssh := SshPut(pc.client))
      else s.(g := g.(puts := g.puts + multiset{pc.client}), ssh := SshDone);
    assert BySsh(s, moved) && Progress(s, moved);
  }

  lemma DirectCanMove(s: State)
    requires InStep(s) && !s.direct.DirectDone? && !s.direct.DirectNotStarted? && !s.direct.DirectOffer?
    ensures exists s' :: Progress(s, s')
  {
    var pc, g := s.direct, s.g;
    var moved :=
      if pc.DirectDial? then s.(direct := DirectFail)
      else if pc.DirectFail? then s.(g := g.(failedChan := g.failedChan + 1), direct := DirectDone)
      else s.(g := g.(closes := g.closes + multiset{pc.conn}), direct := DirectDone);
    assert ByDirect(s, moved) && Progress(s, moved);
  }

  lemma WaitingCanMove(s: State)
    requires InStep(s) && s.main.Waiting?
    requires s.ssh.SshDone? || s.ssh.SshOffer?
    requires s.direct.DirectDone? || s.direct.DirectOffer?
    ensures exists s' :: Progress(s, s')
  {
    if s.ssh.SshOffer? {
      var moved := s.(main := Received(s.main, SshResult(s.ssh.conn, s.ssh.client)), ssh := SshDone);
      assert HandsOver(s, moved) && Progress(s, moved);
    } else if s.direct.DirectOffer? {
      var moved := s.(main := Received(s.main, DirectResult(s.direct.conn)), direct := DirectDone);
      assert HandsOver(s, moved) && Progress(s, moved);
    } else if s.g.ctxDone {
      var moved := s.(main := LastLook);
      assert ByMain(s, moved) && Progress(s, moved);
    } else {
      var count := s.main.failCount + 1;
      var moved := s.(g := s.g.(failedChan := s.g.failedChan - 1),
                      main := if count >= 2 then GivingUp else Waiting(count));
      assert ByMain(s, moved) && Progress(s, moved);
    }
  }

  lemma MainCanMove(s: State)
    requires InStep(s) && !s.main.Waiting? && !s.main.Returned?
    ensures exists s' :: Progress(s, s')
  {
    var pc, g := s.main, s.g;
    if pc.SpawnSsh? {
      var moved := s.(main := SpawnDirect, ssh := SshGet);
      assert Spawns(s, moved) && Progress(s, moved);
    } else if pc.SpawnDirect? {
      var moved := s.(main := Waiting(0), direct := DirectDial);
      assert Spawns(s, moved) && Progress(s, moved);
    } else if pc.Lookup? || pc.CachedGet? || pc.CachedDial? || pc.CachedPut? || pc.CachedDirect? || pc.CachedStore? {
      CachedCanMove(s);
    } else {
      var moved :=
        if pc.Cancelling? then s.(g := g.(ctxDone := true), main := Storing(pc.result))
        else if pc.Storing? then
          s.(g := g.(stored := g.stored + [Success(pc.result.via)]), main := Returning(pc.result))
        else if pc.LastLook? then s.(main := GivingUp)
        else if pc.GivingUp? then s.(g := g.(stored := g.stored + [Failure]), main := Returning(NO_ROUTE))
        else s.(g := g.(ctxDone := true), main := Returned(pc.result));
      assert WaitStep(s.g, s.main, moved.g, moved.main);
      assert ByMain(s, moved) && Progress(s, moved);
    }
  }

  lemma CachedCanMove(s: State)
    requires || s.main.Lookup? || s.main.CachedGet? || s.main.CachedDial? || s.main.CachedPut?
             || s.main.CachedDirect? || s.main.CachedStore?
    ensures exists s' :: Progress(s, s')
  {
    var pc, g := s.main, s.g;
    var moved :=
      if pc.Lookup? then
        s.(main := if FastFail(g.view) then Returning(NO_ROUTE)
                   else if g.view == None then SpawnSsh
                   else if g.view.value.via == SSH then CachedGet else CachedDirect)
      else if pc.CachedGet? || pc.CachedDirect? then s.(main := SpawnSsh)
      else if pc.CachedDial? then s.(main := CachedPut(pc.client))
      else if pc.CachedPut? then s.(g := g.(puts := g.puts + multiset{pc.client}), main := SpawnSsh)
      else s.(g := g.(stored := g.stored + [Success(pc.result.via)]), main := Returning(pc.result));
    assert CachedStep(s.g, s.main, moved.g, moved.main);
    assert ByMain(s, moved) && Progress(s, moved);
  }

  // ---- every execution is short ----

  function MainRank(pc: MainPc): nat {
    if pc.Lookup? then 12
    else if pc.CachedGet? then 11
    else if pc.CachedDial? then 10
    else if pc.CachedPut? || pc.CachedDirect? then 9
    else if pc.SpawnSsh? then 8
    else if pc.SpawnDirect? then 7
    else if pc.Waiting? then (if pc.failCount == 0 then 6 else 5)
    else if pc.LastLook? || pc.Cancelling? then 4
    else if pc.GivingUp? || pc.Storing? || pc.CachedStore? then 3
    else if pc.Returning? then 2
    else 1
  }

  function SshRank(pc: SshPc): nat {
    if pc.SshNotStarted? then 6
    else if pc.SshGet? then 5
    else if pc.SshDial? then 4
    else if pc.SshPutBack? || pc.SshOffer? then 3
    else if pc.SshFail? || pc.SshClose? then 2
    else if pc.SshPut? then 1
    else 0
  }

  function DirectRank(pc: DirectPc): nat {
    if pc.DirectNotStarted? then 4
    else if pc.DirectDial? then 3
    else if pc.DirectOffer? then 2
    else if pc.DirectFail? || pc.DirectClose? then 1
    else 0
  }

  function Rank(s: State): nat {
    MainRank(s.main) + SshRank(s.ssh) + DirectRank(s.direct) + if s.g.ctxDone then 0 else 1
  }

  lemma MainLowersRank(s: State, s': State)
    requires InStep(s) && ByMain(s, s')
    ensures Rank(s') < Rank(s)
  {
    if CachedStep(s.g, s.main, s'.g, s'.main) {
      CachedLowersRank(s, s');
    } else {
      WaitLowersRank(s, s');
    }
  }

  lemma CachedLowersRank(s: State, s': State)
    requires CachedStep(s.g, s.main, s'.g, s'.main)
    ensures MainRank(s'.main) < MainRank(s.main) && s'.g.ctxDone == s.g.ctxDone
  {
  }

  lemma WaitLowersRank(s: State, s': State)
    requires InStep(s) && WaitStep(s.g, s.main, s'.g, s'.main)
    ensures MainRank(s'.main) < MainRank(s.main) && (s.g.ctxDone ==> s'.g.ctxDone)
  {
  }

  lemma ProbersLowerRank(s: State, s': State)
    requires BySsh(s, s') || ByDirect(s, s')
    ensures Rank(s') < Rank(s)
  {
  }

  lemma OthersLowerRank(s: State, s': State)
    requires InStep(s) && (Spawns(s, s') || HandsOver(s, s') || Expires(s, s'))
    ensures Rank(s') < Rank(s)
  {
  }

  /** Each step brings the end nearer; with NoDeadlock, every execution that the scheduler
      does not abandon ends with all three goroutines ended. */
  lemma EveryStepLowersRank(s: State, s': State)
    requires Reachable(s) && Next(s, s')
    ensures Rank(s') < Rank(s)
  {
    ReachableInv(s);
    if ByMain(s, s') { MainLowersRank(s, s'); }
    else if BySsh(s, s') || ByDirect(s, s') { ProbersLowerRank(s, s'); }
    else { OthersLowerRank(s, s'); }
  }

  lemma {:induction false} RunsAreShort(run: seq<State>, i: nat)
    requires IsRun(run) && i < |run|
    ensures i + Rank(run[i]) <= 23
  {
    if i > 0 {
      RunsAreShort(run, i - 1);
      assert NextAt(run, i - 1);
      PrefixReaches(run, i - 1);
      EveryStepLowersRank(run[i - 1], run[i]);
    }
  }

  lemma PrefixReaches(run: seq<State>, i: nat)
    requires IsRun(run) && i < |run|
    ensures Reachable(run[i])
  {
    var prefix := run[..i + 1];
    forall k | 0 <= k < |prefix| - 1 ensures NextAt(prefix, k) {
      assert NextAt(run, k);
    }
    assert IsRun(prefix) && prefix[|prefix| - 1] == run[i];
  }
}
