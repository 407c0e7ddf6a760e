/** What holds of the SSH connection pool in every reachable state, and two short
    executions that show which promises it does not keep. */
module PoolTheorems {
  import opened Common
  import opened Pool
  import opened PoolOwnership
  import opened PoolClosing
  import opened PoolLimits

  ghost predicate Reachable(s: State) {
    exists run :: IsRun(run) && run[|run| - 1] == s
  }

  ghost predicate Inv(s: State) {
    Owned(s) && Closing(s) && Limited(s) && Tracked(s)
  }

  /** Every state of every run satisfies the invariant. */
  lemma {:induction false} RunsKeepInv(run: seq<State>, i: nat)
    requires IsRun(run) && i < |run|
    ensures Inv(run[i])
  {
    if i == 0 {
      InitOwned(run[0]);
      InitClosing(run[0]);
      InitLimits(run[0]);
    } else {
      RunsKeepInv(run, i - 1);
      assert NextAt(run, i - 1);
      NextKeepsOwned(run[i - 1], run[i]);
      NextKeepsClosing(run[i - 1], run[i]);
      NextKeepsLimits(run[i - 1], run[i]);
    }
  }

  lemma ReachableInv(s: State)
    requires Reachable(s)
    ensures Inv(s)
  {
    var run :| IsRun(run) && run[|run| - 1] == s;
    RunsKeepInv(run, |run| - 1);
  }

  /** A client sits in at most one place, and one that sits nowhere has been closed. */
  lemma ClientsHaveOnePlace(s: State)
    requires Reachable(s)
    ensures |s.g.connections| <= s.g.maxSize
    ensures forall i, j :: 0 <= i < j < |s.g.connections| ==> s.g.connections[i] != s.g.connections[j]
    ensures forall p :: InHand(s, p).Some? ==> InHand(s, p).value !in s.g.connections
    ensures forall p, q :: InHand(s, p).Some? && InHand(s, p) == InHand(s, q) ==> p == q
    ensures forall c :: Created(s, c) && c !in s.g.connections && !Held(s, c) ==> c in s.g.shut
  {
    ReachableInv(s);
  }

  /** p, holding c alone and with c not in the channel, closes it. */
  ghost predicate HolderCloses(s: State, p: Pid, s': State, c: Client) {
    && Step(s, p, s')
    && s.Pc(p).Shut? && s.Pc(p).c == c && c !in s.g.connections
    && forall q :: InHand(s, q) == Some(c) ==> q == p
  }

  /** p is a health prober whose keepalive on c timed out, and closes it. */
  ghost predicate ProberKills(s: State, p: Pid, s': State, c: Client) {
    Step(s, p, s') && s.Pc(p) == HealthShut(c) && c in s.g.timedOut
  }

  /** The pool closes a client only when the closing goroutine is the sole holder of it.
      The one exception is a health prober whose keepalive timed out. */
  lemma OnlyTheHolderCloses(s: State, s': State, c: Client)
    requires Reachable(s) && Next(s, s') && c !in s.g.shut && c in s'.g.shut
    ensures exists p :: HolderCloses(s, p, s', c) || ProberKills(s, p, s', c)
  {
    ReachableInv(s);
    var p :| Step(s, p, s');
    StepTransfers(s.g, s.Pc(p), s'.g, s'.Pc(p));
    assert Disposes(s.g, s.Pc(p), s'.g, s'.Pc(p)) || Kills(s.g, s.Pc(p), s'.g, s'.Pc(p));
    assert InHand(s, p) == Some(c) || s.Pc(p) == HealthShut(c);
    assert HolderCloses(s, p, s', c) || ProberKills(s, p, s', c);
  }

  /** A client somebody is using is never closed under them but by a health prober whose
      keepalive on it timed out. */
  lemma InUseStaysOpen(s: State, s': State, q: Pid, c: Client)
    requires Reachable(s) && Next(s, s') && s.Pc(q) == Using(c) && c !in s.g.shut
    ensures c in s'.g.shut ==> exists p :: ProberKills(s, p, s', c)
  {
    if c in s'.g.shut {
      OnlyTheHolderCloses(s, s', c);
      var p :| HolderCloses(s, p, s', c) || ProberKills(s, p, s', c);
      assert InHand(s, q) == Some(c);
    }
  }

  /** p's step is the one with which Get returns c. */
  ghost predicate GetReturns(s: State, p: Pid, s': State, c: Client) {
    && Step(s, p, s') && s'.Pc(p) == Using(c)
    && (s.Pc(p) == GetInspect(c) || s.Pc(p) == GetRefresh(c) || s.Pc(p) == DialDone(c))
  }

  /** Get returns a closed client exactly when a health prober has closed it by then.  The
      branch that lets it through is the record of a healthy check less than a minute old,
      unless the prober came after this call's own keepalive or dial. */
  lemma GetReturnsClosedIffKilled(s: State, p: Pid, s': State, c: Client)
    requires Reachable(s) && GetReturns(s, p, s', c)
    ensures c in s'.g.shut <==> c in s.g.killed
    ensures c in s.g.killed ==> c in s.g.timedOut
    ensures s.Pc(p) == GetInspect(c) ==>
              c in s.g.healthStatus && s.g.healthStatus[c].healthy && s.g.now - s.g.healthStatus[c].lastChecked < MINUTE
  {
    ReachableInv(s);
    assert InHand(s, p) == Some(c);
    ReturningChangesNothing(s.g, s.Pc(p), s'.g, s'.Pc(p));
  }

  lemma ReturningChangesNothing(g: Shared, pc: Pc, g': Shared, pc': Pc)
    requires LocalStep(g, pc, g', pc') && pc'.Using?
    requires pc == GetInspect(pc'.c) || pc == GetRefresh(pc'.c) || pc == DialDone(pc'.c)
    ensures g'.shut == g.shut
    ensures pc.GetInspect? ==>
              && pc.c in g.healthStatus && g.healthStatus[pc.c].healthy
              && g.now - g.healthStatus[pc.c].lastChecked < MINUTE
  {
    var r :| StepIn(r, g, pc, g', pc');
  }

  /** A client in somebody's hands is closed exactly when a health prober closed it. */
  lemma HeldIsShutIffKilled(s: State, p: Pid)
    requires Reachable(s) && InHand(s, p).Some?
    ensures InHand(s, p).value in s.g.shut <==> InHand(s, p).value in s.g.killed
  {
    ReachableInv(s);
  }

  /** Closed pool, nobody still bound to look at the channel: at most one client is left,
      in the channel or in the sweeper's hands, and the channel is not empty exactly when
      the last thing done to it was a re-send by the sweeper after the close. */
  lemma ClosedPoolKeepsAtMostOne(s: State)
    requires Reachable(s) && s.g.closed && Unanswered(s)
    ensures |s.g.connections| + (if InHand(s, SWEEPER).Some? then 1 else 0) <= 1
    ensures s.g.connections != [] <==> s.g.lastOp.Sent? && s.g.lastOp.bySweeper && s.g.lastOp.whileClosed
    ensures s.g.lastOp.Sent? ==> s.g.connections == [s.g.lastOp.c]
  {
    ReachableInv(s);
  }

  /** Without the sweeper's re-send the recheck in Put does its job: whenever the pool is
      closed and the channel is not empty, somebody is still going to drain it. */
  lemma NonEmptyMeansSomebodyDrains(s: State)
    requires Reachable(s) && s.g.closed && s.g.connections != []
    requires !(s.g.lastOp.Sent? && s.g.lastOp.bySweeper && s.g.lastOp.whileClosed)
    ensures exists p :: Answerable(s.Pc(p))
  {
    if Unanswered(s) {
      ClosedPoolKeepsAtMostOne(s);
    }
  }

  ghost predicate AtRest(s: State) {
    forall p :: s.Pc(p) in {Idle, SweepWait, HealthWait, Stopped}
  }

  /** Once a closed pool is at rest, every client ever created has been closed, but for the
      one the sweeper may have re-sent after the close. */
  lemma ClosedAtRestLeaksOnlyTheResent(s: State, c: Client)
    requires Reachable(s) && s.g.closed && AtRest(s) && Created(s, c)
    ensures c !in s.g.shut <==> s.g.lastOp == Sent(c, true, true) && c !in s.g.killed
  {
    ReachableInv(s);
    forall p ensures !Answerable(s.Pc(p)) && InHand(s, p) == None {
      assert s.Pc(p) in {Idle, SweepWait, HealthWait, Stopped};
    }
  }

  /** Never more than the allowed dials and probes, and giving a token back never blocks. */
  lemma SemaphoresHold(s: State)
    requires Reachable(s)
    ensures s.g.dialSem == Count(s.procs, HasDialSlot) <= MAX_CONCURRENT_DIALS
    ensures s.g.probes == Count(s.procs, Probing) <= MAX_HEALTH_CHECK_CONCURRENCY
    ensures forall p :: HasDialSlot(s.Pc(p)) ==> s.g.dialSem > 0
    ensures forall p :: Probing(s.Pc(p)) ==> s.g.probes > 0
  {
    ReachableInv(s);
    forall p | HasDialSlot(s.Pc(p)) ensures s.g.dialSem > 0 {
      CountAtLeast(s.procs, {p}, HasDialSlot);
    }
    forall p | Probing(s.Pc(p)) ensures s.g.probes > 0 {
      CountAtLeast(s.procs, {p}, Probing);
    }
  }

  /** Client numbers are never NIL. */
  lemma CreatedIsNotNil(s: State)
    requires Reachable(s)
    ensures s.g.next > NIL
  {
    ReachableInv(s);
  }

  /** A Close in a closed pool brings the number of clients in play down. */
  lemma CloseShrinks(s: State, p: Pid, s': State)
    requires Reachable(s) && s.Pc(p).Shut? && Step(s, p, s') && s.g.closed
    ensures Open(s') < Open(s)
  {
    ReachableInv(s);
    StepShrinks(s, p, s');
  }

  /** However often closeAll is called, `done` is closed at most once. */
  lemma DoneIsClosedOnce(s: State, p: Pid)
    requires Reachable(s) && s.Pc(p) == CloseSignal
    ensures s.g.closed && !s.g.done
    ensures forall q :: s.Pc(q) == CloseSignal ==> q == p
  {
    ReachableInv(s);
  }

  /** The sweeper decides by age alone: unless a health probe on the client timed out, the
      client is on record, and it is closed exactly when unused for more than an hour. */
  lemma SweepDecidesByAge(s: State, s': State)
    requires Reachable(s) && Step(s, SWEEPER, s') && s.Pc(SWEEPER).SweepInspect?
    requires s.Pc(SWEEPER).c !in s.g.timedOut
    ensures var c := s.Pc(SWEEPER).c;
            && c in s.g.lastUsed
            && (s'.Pc(SWEEPER).Untrack? <==> s.g.now - s.g.lastUsed[c] > HOUR)
            && (s'.Pc(SWEEPER).SweepResend? <==> s.g.now - s.g.lastUsed[c] <= HOUR)
  {
    ReachableInv(s);
    assert OnRecord(s.Pc(SWEEPER));
  }

  /** Along any execution a closed pool stays closed and has ever fewer clients in play. */
  lemma {:induction false} ClosedRunsShrink(run: seq<State>, i: nat, j: nat)
    requires IsRun(run) && i <= j < |run| && run[i].g.closed
    ensures run[j].g.closed && Open(run[j]) <= Open(run[i])
    ensures run[i].g.done ==> run[j].g.done
  {
    if i < j {
      ClosedRunsShrink(run, i, j - 1);
      ShrinksAt(run, j - 1);
    }
  }

  lemma ShrinksAt(run: seq<State>, j: nat)
    requires IsRun(run) && j < |run| - 1 && run[j].g.closed
    ensures run[j + 1].g.closed && Open(run[j + 1]) <= Open(run[j])
    ensures run[j].g.done ==> run[j + 1].g.done
  {
    RunsKeepInv(run, j);
    assert NextAt(run, j);
    ClosedOnlyShrinks(run[j], run[j + 1]);
    if run[j].g.done {
      DoneStays(run[j], run[j + 1]);
    }
  }

  lemma DoneStays(s: State, s': State)
    requires Next(s, s') && s.g.done
    ensures s'.g.done
  {
    if p :| Step(s, p, s') {
      StepDutiful(s.g, s.Pc(p), s'.g, s'.Pc(p));
    }
  }

  // ---- two executions ----

  function At(s: State, p: Pid, g: Shared, pc: Pc): State {
    State(g, s.procs[p := pc])
  }

  lemma MoveTwice(procs: map<Pid, Pc>, p: Pid, pc: Pc, pc': Pc)
    ensures procs[p := pc][p := pc'] == procs[p := pc']
  {
  }

  lemma Extend(s: State, s': State)
    requires Reachable(s) && Next(s, s')
    ensures Reachable(s')
  {
    var run :| IsRun(run) && run[|run| - 1] == s;
    var longer := run + [s'];
    assert longer[|longer| - 1] == s';
    forall i | 0 <= i < |longer| - 1 ensures NextAt(longer, i) {
      if i < |run| - 1 {
        assert NextAt(run, i);
      }
    }
    assert IsRun(longer);
  }

  /** p, in routine r, takes the system from s to (g, pc). */
  lemma Go(r: Routine, s: State, p: Pid, g: Shared, pc: Pc) returns (s': State)
    requires Reachable(s) && StepIn(r, s.g, s.Pc(p), g, pc)
    ensures Reachable(s') && Step(s, p, s') && s' == At(s, p, g, pc)
  {
    s' := At(s, p, g, pc);
    assert Step(s, p, s');
    Extend(s, s');
  }

  const CALLER: Pid := 2
  const BOOT := map[SWEEPER := SweepWait, CHECKER := HealthWait]
  /** A pool of size one with client 1 on record. */
  function OneClient(connections: seq<Client>, dialSem: nat, lastOp: ChanOp): Shared {
    Shared(connections, 1, map[1 := 0], map[1 := Health(true, 0)], dialSem, false, false, 0, 2, {}, {}, {}, lastOp, 0)
  }

  function NewPool(dialSem: nat): Shared {
    Shared([], 1, map[], map[], dialSem, false, false, 0, 1, {}, {}, {}, NoOp, 0)
  }

  /** The caller finds the channel empty and has a dial slot. */
  lemma FirstDial() returns (s: State)
    ensures Reachable(s)
    ensures s == State(NewPool(1), BOOT[CALLER := Dialling])
  {
    var g := NewPool(0);
    s := State(g, BOOT);
    assert IsRun([s]);
    assert Reachable(s) by { assert [s][|[s]| - 1] == s; }
    s := Go(Get, s, CALLER, g, GetTake);
    s := Go(Get, s, CALLER, g, DialCheck);
    s := Go(CreateConnection, s, CALLER, g, DialSlot);
    s := Go(CreateConnection, s, CALLER, NewPool(1), Dialling);
    assert s.procs == BOOT[CALLER := Dialling];
  }

  /** The caller has had client 1 created for it. */
  lemma FirstClient() returns (s: State)
    ensures Reachable(s)
    ensures s == State(OneClient([], 0, NoOp), BOOT[CALLER := Using(1)])
  {
    s := FirstDial();
    var g := s.g.(next := 2);
    s := Go(CreateConnection, s, CALLER, g, DialRegister(1));
    g := OneClient([], 1, NoOp);
    s := Go(CreateConnection, s, CALLER, g, DialDone(1));
    g := OneClient([], 0, NoOp);
    s := Go(CreateConnection, s, CALLER, g, Using(1));
    assert s.procs == BOOT[CALLER := Using(1)];
  }

  /** ... and has put it back. */
  lemma FirstClientIdle() returns (s: State)
    ensures Reachable(s)
    ensures s == State(OneClient([1], 0, Sent(1, false, false)), BOOT[CALLER := Idle])
  {
    s := FirstClient();
    var g := s.g;
    s := Go(Put, s, CALLER, g, PutCheck(1));
    s := Go(Put, s, CALLER, g, PutTrack(1));
    s := Go(Put, s, CALLER, g, PutSend(1));
    g := g.Push(1, false);
    s := Go(Put, s, CALLER, g, PutRecheck);
    s := Go(Put, s, CALLER, g, Idle);
    assert s.procs == BOOT[CALLER := Idle];
  }

  const SWEEPING := BOOT[CALLER := Idle][SWEEPER := SweepInspect(1, 0, 1)]

  /** The sweeper has taken the idle client. */
  lemma SweeperTakes() returns (s: State)
    ensures Reachable(s)
    ensures s == State(OneClient([], 0, Received), SWEEPING)
  {
    s := FirstClientIdle();
    var g, procs := s.g, s.procs;
    s := Go(Cleanup, s, SWEEPER, g, SweepCount);
    s := Go(Cleanup, s, SWEEPER, g, SweepLoop(0, 1));
    MoveTwice(procs, SWEEPER, SweepCount, SweepLoop(0, 1));
    MoveTwice(procs, SWEEPER, SweepLoop(0, 1), SweepInspect(1, 0, 1));
    assert [1][1..] == [] && g.Pop() == OneClient([], 0, Received);
    s := Go(Cleanup, s, SWEEPER, OneClient([], 0, Received), SweepInspect(1, 0, 1));
  }

  /** ... and the pool is closed and drained. */
  lemma ClosedWhileSweeping() returns (s: State)
    ensures Reachable(s)
    ensures s == State(OneClient([], 0, Received).(closed := true, done := true), SWEEPING)
  {
    s := SweeperTakes();
    var g := s.g.(closed := true);
    s := Go(CloseAll, s, CALLER, g, CloseSignal);
    g := g.(done := true);
    s := Go(CloseAll, s, CALLER, g, CloseDrain);
    s := Go(CloseAll, s, CALLER, g, Idle);
    assert s.procs == SWEEPING;
  }

  /** The sweeper takes the idle client, the pool is closed and drained, the sweeper
      re-sends the client: it stays open in the closed pool for good. */
  lemma SweeperCanStrandAClient()
    ensures exists s :: Reachable(s) && AtRest(s) && s.g.closed && s.g.connections == [1] && 1 !in s.g.shut
                     && s.Pc(SWEEPER) == Stopped
  {
    var s := ClosedWhileSweeping();
    var g := s.g;
    s := Go(Cleanup, s, SWEEPER, g, SweepResend(1, 0, 1));
    g := g.Push(1, true);
    s := Go(Cleanup, s, SWEEPER, g, SweepLoop(1, 1));
    s := Go(Cleanup, s, SWEEPER, g, SweepWait);
    s := Go(Cleanup, s, SWEEPER, g, Stopped);
    assert AtRest(s);
  }

  const PROBER: Pid := 3

  function OneClientKilled(connections: seq<Client>, lastUsed: map<Client, Time>, healthStatus: map<Client, Health>,
                           lastOp: ChanOp): Shared
  {
    Shared(connections, 1, lastUsed, healthStatus, 0, false, false, 0, 2, {1}, {1}, {1}, lastOp, 1)
  }

  const PROBED := BOOT[CALLER := Using(1)][CHECKER := HealthRound({})][PROBER := HealthEnd]

  /** A prober has begun with the client that is in use. */
  lemma ProbedInUse() returns (s: State)
    ensures Reachable(s)
    ensures s == State(OneClient([], 0, NoOp).(probes := 1),
                       BOOT[CALLER := Using(1)][CHECKER := HealthRound({})][PROBER := HealthProbe(1)])
  {
    var used := FirstClient();
    var round := Go(Check, used, CHECKER, used.g, HealthRound({1}));
    assert {1} - {1} == {};
    s := State(used.g.(probes := 1), round.procs[CHECKER := HealthRound({})][PROBER := HealthProbe(1)]);
    assert Spawn(round, CHECKER, PROBER, 1, s);
    Extend(round, s);
    MoveTwice(used.procs, CHECKER, HealthRound({1}), HealthRound({}));
  }

  /** The probe times out, and its prober closes the client. */
  lemma KilledInUse() returns (s: State)
    ensures Reachable(s)
    ensures s == State(OneClientKilled([], map[], map[], NoOp), PROBED)
  {
    s := ProbedInUse();
    var g := s.g.(timedOut := {1});
    s := Go(Probe, s, PROBER, g, HealthUntrack(1));
    g := g.Forgotten(1);
    s := Go(Probe, s, PROBER, g, HealthShut(1));
    g := g.(shut := {1}, killed := {1});
    s := Go(Probe, s, PROBER, g, HealthEnd);
    assert g == OneClientKilled([], map[], map[], NoOp);
    assert s.procs == PROBED;
  }

  /** ... whereupon Put records the closed client as healthy and sends it. */
  lemma KilledIdle() returns (s: State)
    ensures Reachable(s)
    ensures s == State(OneClientKilled([1], map[1 := 0], map[1 := Health(true, 0)], Sent(1, false, false)),
                       PROBED[CALLER := Idle])
  {
    s := KilledInUse();
    var g := s.g;
    s := Go(Put, s, CALLER, g, PutCheck(1));
    s := Go(Put, s, CALLER, g, PutTrack(1));
    g := g.(lastUsed := map[1 := 0], healthStatus := map[1 := Health(true, 0)]);
    s := Go(Put, s, CALLER, g, PutSend(1));
    g := g.Push(1, false);
    s := Go(Put, s, CALLER, g, PutRecheck);
    s := Go(Put, s, CALLER, g, Idle);
    assert s.procs == PROBED[CALLER := Idle];
  }

  /** A client killed while in use is put back, and the next Get takes it from the channel
      and returns it, closed, on the strength of the record Put made. */
  lemma GetCanReturnAClosedClient()
    ensures exists s, s' :: && Reachable(s) && GetReturns(s, CALLER, s', 1)
                            && s.Pc(CALLER) == GetInspect(1) && 1 in s.g.shut && s'.Pc(CALLER) == Using(1)
  {
    var s := KilledIdle();
    var g := s.g;
    s := Go(Get, s, CALLER, g, GetTake);
    g := g.Pop();
    s := Go(Get, s, CALLER, g, GetInspect(1));
    var s' := Go(Get, s, CALLER, g, Using(1));
    assert GetReturns(s, CALLER, s', 1);
  }
}
