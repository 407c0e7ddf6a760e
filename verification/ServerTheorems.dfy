/** Limiter conservation and shutdown ordering, for every execution of the server. */
module ServerTheorems {
  import opened Common
  import opened Server

  predicate HasToken(pc: Pc) {
    pc.Handling? && !pc.once
  }

  /** Between acceptWG.Add and acceptWG.Done. */
  predicate InAccept(pc: Pc) {
    || pc.StartSpawn? || pc.Accepting? || pc.Backoff? || pc.AcceptedOne? || pc.AcceptSpawn? || pc.AcceptReturn?
  }

  /** Between activeConn.Add and activeConn.Done. */
  predicate InFlight(pc: Pc) {
    pc.AcceptSpawn? || pc.Queueing? || pc.Rejecting? || pc.Handling? || pc.Returning?
  }

  predicate InStart(pc: Pc) {
    pc.Starting? || pc.StartAdd? || pc.StartSpawn?
  }

  predicate InStop(pc: Pc) {
    || pc.StopOnce? || pc.CloseListeners? || pc.WaitAccept? || pc.SpawnWaiter? || pc.Grace? || pc.ClosePool?
    || pc.WaitBegin? || pc.WaitActive?
  }

  /** Past acceptWG.Wait. */
  predicate PastAccept(pc: Pc) {
    pc.SpawnWaiter? || pc.Grace? || pc.WaitBegin? || pc.WaitActive?
  }

  predicate PcOk(g: Shared, pc: Pc) {
    && (pc.Handling? ==> pc.releases == if pc.once then 1 else 0)
    && (pc.Returning? ==> pc.releases == if pc.admitted then 1 else 0)
    && (pc.StartAdd? || pc.StartSpawn? ==> pc.left > 0)
    && (InStart(pc) ==> g.starting)
    && (InStop(pc) ==> !g.starting)
    && (PastAccept(pc) ==> g.acceptWG == 0)
    && ((pc.WaitAccept? || PastAccept(pc)) ==> g.listenersClosed)
  }

  ghost predicate Counted(s: State) {
    && s.g.limiter == Count(s.procs, HasToken) && s.g.limiter <= s.g.maxConns
    && s.g.acceptWG == Count(s.procs, InAccept)
    && s.g.activeConn == Count(s.procs, InFlight)
  }

  ghost predicate Ordered(s: State) {
    && (forall p :: PcOk(s.g, s.Pc(p)))
    && (forall p :: InStart(s.Pc(p)) ==> p == STARTER)
    && (s.g.waiting ==> !s.g.starting && s.g.acceptWG == 0)
    && s.g.stopCloses == (if s.g.stopped then 1 else 0)
    && s.g.poolCloses == (if s.g.poolClosed then 1 else 0)
  }

  ghost predicate Inv(s: State) {
    Counted(s) && Ordered(s)
  }

  // ---- one step ----

  function One(b: bool): int {
    if b then 1 else 0
  }

  ghost predicate Counts(g: Shared, pc: Pc, g': Shared, pc': Pc) {
    && g'.maxConns == g.maxConns
    && g'.limiter == g.limiter + One(HasToken(pc')) - One(HasToken(pc))
    && (g'.limiter <= g.limiter || g'.limiter <= g.maxConns)
    && g'.acceptWG == g.acceptWG + One(InAccept(pc')) - One(InAccept(pc))
    && g'.activeConn == g.activeConn + One(InFlight(pc')) - One(InFlight(pc))
  }

  ghost predicate Orders(g: Shared, pc: Pc, g': Shared, pc': Pc) {
    && (PcOk(g, pc) ==> PcOk(g', pc'))
    && Forward(g, pc, g', pc')
  }

  /** What is past stays past, and who may move what. */
  ghost predicate Forward(g: Shared, pc: Pc, g': Shared, pc': Pc) {
    && (g'.starting ==> g.starting)
    && (g.starting && !g'.starting ==> pc.Starting? && !InStart(pc'))
    && (g.listenersClosed ==> g'.listenersClosed)
    && (InStart(pc') ==> InStart(pc))
    && (g'.acceptWG > g.acceptWG ==> pc.StartAdd?)
    && (g'.activeConn > g.activeConn ==> pc.AcceptedOne?)
    && (g'.waiting && !g.waiting ==> pc.WaitBegin?)
    && ClosesOnce(g, g')
  }

  /** Closed where it is noted as closed. */
  ghost predicate ClosesOnce(g: Shared, g': Shared) {
    && g'.stopCloses - g.stopCloses == One(g'.stopped) - One(g.stopped)
    && g'.poolCloses - g.poolCloses == One(g'.poolClosed) - One(g.poolClosed)
  }

  ghost predicate ClosesNothing(g: Shared, g': Shared) {
    && g'.starting == g.starting && g'.waiting == g.waiting && g'.listenersClosed == g.listenersClosed
    && g'.stopped == g.stopped && g'.stopCloses == g.stopCloses
    && g'.poolClosed == g.poolClosed && g'.poolCloses == g.poolCloses
  }

  lemma StartLawful(g: Shared, pc: Pc, g': Shared, pc': Pc)
    requires StartStep(g, pc, g', pc')
    ensures Counts(g, pc, g', pc') && Orders(g, pc, g', pc')
  {
  }

  lemma AcceptLawful(g: Shared, pc: Pc, g': Shared, pc': Pc)
    requires AcceptStep(g, pc, g', pc')
    ensures Counts(g, pc, g', pc') && Orders(g, pc, g', pc')
  {
    AcceptCounts(g, pc, g', pc');
    AcceptGoesForward(g, pc, g', pc');
    AcceptStaysOk(g, pc, g', pc');
  }

  lemma AcceptCounts(g: Shared, pc: Pc, g': Shared, pc': Pc)
    requires AcceptStep(g, pc, g', pc')
    ensures Counts(g, pc, g', pc')
  {
  }

  lemma AcceptGoesForward(g: Shared, pc: Pc, g': Shared, pc': Pc)
    requires AcceptStep(g, pc, g', pc')
    ensures Forward(g, pc, g', pc')
  {
  }

  lemma AcceptStaysOk(g: Shared, pc: Pc, g': Shared, pc': Pc)
    requires AcceptStep(g, pc, g', pc')
    ensures PcOk(g, pc) ==> PcOk(g', pc')
  {
  }

  lemma ServeLawful(g: Shared, pc: Pc, g': Shared, pc': Pc)
    requires ServeStep(g, pc, g', pc')
    ensures Counts(g, pc, g', pc') && Orders(g, pc, g', pc')
  {
    ServeCounts(g, pc, g', pc');
    ServeGoesForward(g, pc, g', pc');
    ServeStaysOk(g, pc, g', pc');
  }

  lemma ServeCounts(g: Shared, pc: Pc, g': Shared, pc': Pc)
    requires ServeStep(g, pc, g', pc')
    ensures Counts(g, pc, g', pc')
  {
  }

  lemma ServeGoesForward(g: Shared, pc: Pc, g': Shared, pc': Pc)
    requires ServeStep(g, pc, g', pc')
    ensures Forward(g, pc, g', pc')
  {
    ServeClosesNothing(g, pc, g', pc');
  }

  lemma ServeClosesNothing(g: Shared, pc: Pc, g': Shared, pc': Pc)
    requires ServeStep(g, pc, g', pc')
    ensures ClosesNothing(g, g')
  {
  }

  lemma ServeStaysOk(g: Shared, pc: Pc, g': Shared, pc': Pc)
    requires ServeStep(g, pc, g', pc')
    ensures PcOk(g, pc) ==> PcOk(g', pc')
  {
  }

  lemma HandleLawful(g: Shared, pc: Pc, g': Shared, pc': Pc)
    requires HandleStep(g, pc, g', pc')
    ensures Counts(g, pc, g', pc') && Orders(g, pc, g', pc')
  {
    HandleGoesForward(g, pc, g', pc');
  }

  lemma HandleGoesForward(g: Shared, pc: Pc, g': Shared, pc': Pc)
    requires HandleStep(g, pc, g', pc')
    ensures Forward(g, pc, g', pc')
  {
    HandleClosesNothing(g, pc, g', pc');
  }

  lemma HandleClosesNothing(g: Shared, pc: Pc, g': Shared, pc': Pc)
    requires HandleStep(g, pc, g', pc')
    ensures ClosesNothing(g, g')
  {
  }

  lemma StopLawful(g: Shared, pc: Pc, g': Shared, pc': Pc)
    requires StopStep(g, pc, g', pc')
    ensures Counts(g, pc, g', pc') && Orders(g, pc, g', pc')
  {
    StopCounts(g, pc, g', pc');
    StopGoesForward(g, pc, g', pc');
    StopStaysOk(g, pc, g', pc');
  }

  lemma StopCounts(g: Shared, pc: Pc, g': Shared, pc': Pc)
    requires StopStep(g, pc, g', pc')
    ensures Counts(g, pc, g', pc')
  {
  }

  lemma StopGoesForward(g: Shared, pc: Pc, g': Shared, pc': Pc)
    requires StopStep(g, pc, g', pc')
    ensures Forward(g, pc, g', pc')
  {
    StopClosesOnce(g, pc, g', pc');
    StopKeepsCounts(g, pc, g', pc');
  }

  lemma StopClosesOnce(g: Shared, pc: Pc, g': Shared, pc': Pc)
    requires StopStep(g, pc, g', pc')
    ensures ClosesOnce(g, g')
  {
  }

  lemma StopKeepsCounts(g: Shared, pc: Pc, g': Shared, pc': Pc)
    requires StopStep(g, pc, g', pc')
    ensures g'.starting == g.starting && g'.acceptWG == g.acceptWG && g'.activeConn == g.activeConn
    ensures !InStart(pc) && !InStart(pc')
  {
  }

  lemma StopStaysOk(g: Shared, pc: Pc, g': Shared, pc': Pc)
    requires StopStep(g, pc, g', pc')
    ensures PcOk(g, pc) ==> PcOk(g', pc')
  {
  }

  lemma StepLawful(g: Shared, pc: Pc, g': Shared, pc': Pc)
    requires LocalStep(g, pc, g', pc')
    ensures Counts(g, pc, g', pc') && Orders(g, pc, g', pc')
  {
    var r :| StepIn(r, g, pc, g', pc');
    match r
    case Start => StartLawful(g, pc, g', pc');
    case AcceptLoop => AcceptLawful(g, pc, g', pc');
    case ServeConn => ServeLawful(g, pc, g', pc');
    case Handle => HandleLawful(g, pc, g', pc');
    case Stop => StopLawful(g, pc, g', pc');
  }

  // ---- the whole table ----

  lemma StepKeepsCounted(s: State, p: Pid, s': State)
    requires Counted(s) && Step(s, p, s')
    ensures Counted(s')
  {
    StepLawful(s.g, s.Pc(p), s'.g, s'.Pc(p));
    CountMove(s.procs, p, s'.Pc(p), HasToken);
    CountMove(s.procs, p, s'.Pc(p), InAccept);
    CountMove(s.procs, p, s'.Pc(p), InFlight);
  }

  /** What others know is not disturbed: only Start adds to acceptWG, and only before anyone stops. */
  lemma StepKeepsOrdered(s: State, p: Pid, s': State)
    requires Inv(s) && Step(s, p, s')
    ensures Ordered(s')
  {
    StepLawful(s.g, s.Pc(p), s'.g, s'.Pc(p));
    assert PcOk(s.g, s.Pc(p));
    if s'.g.waiting && !s.g.waiting {
      assert PastAccept(s.Pc(p));
    }
    forall q ensures PcOk(s'.g, s'.Pc(q)) {
      if q != p {
        assert s'.Pc(q) == s.Pc(q) && PcOk(s.g, s.Pc(q));
        assert InStart(s.Pc(q)) ==> q == STARTER;
        assert InStart(s.Pc(p)) ==> p == STARTER;
        assert s'.g.acceptWG > s.g.acceptWG ==> InStart(s.Pc(p)) && s.g.starting;
        if InAccept(s.Pc(p)) {
          CountAtLeast(s.procs, {p}, InAccept);
        }
      }
    }
    forall q | InStart(s'.Pc(q)) ensures q == STARTER {
      assert InStart(s.Pc(q));
    }
  }

  lemma GoKeepsCounted(s: State, p: Pid, q: Pid, s': State)
    requires Counted(s) && Go(s, p, q, s')
    ensures Counted(s')
  {
    var (parent, child) := AfterGo(s.Pc(p)).value;
    CountMove(s.procs, p, parent, HasToken);
    CountMove(s.procs[p := parent], q, child, HasToken);
    CountMove(s.procs, p, parent, InAccept);
    CountMove(s.procs[p := parent], q, child, InAccept);
    CountMove(s.procs, p, parent, InFlight);
    CountMove(s.procs[p := parent], q, child, InFlight);
  }

  lemma GoKeepsOrdered(s: State, p: Pid, q: Pid, s': State)
    requires Inv(s) && Go(s, p, q, s')
    ensures Ordered(s')
  {
    assert PcOk(s.g, s.Pc(p));
    forall r ensures PcOk(s'.g, s'.Pc(r)) {
      assert PcOk(s.g, s.Pc(r));
    }
    forall r | InStart(s'.Pc(r)) ensures r == STARTER {
      assert InStart(s.Pc(r));
    }
  }

  lemma NextKeepsInv(s: State, s': State)
    requires Inv(s) && Next(s, s')
    ensures Inv(s')
  {
    if Cancel(s, s') {
      forall p ensures PcOk(s'.g, s'.Pc(p)) {
        assert PcOk(s.g, s.Pc(p));
      }
      forall p | InStart(s'.Pc(p)) ensures p == STARTER {
        assert InStart(s.Pc(p));
      }
    } else if p :| Step(s, p, s') {
      StepKeepsCounted(s, p, s');
      StepKeepsOrdered(s, p, s');
    } else {
      var p, q :| Go(s, p, q, s');
      GoKeepsCounted(s, p, q, s');
      GoKeepsOrdered(s, p, q, s');
    }
  }

  lemma InitInv(s: State)
    requires Init(s)
    ensures Inv(s)
  {
    assert Where(s.procs, HasToken) == {};
    assert Where(s.procs, InAccept) == {};
    assert Where(s.procs, InFlight) == {};
  }

  ghost predicate Reachable(s: State) {
    exists run :: IsRun(run) && run[|run| - 1] == s
  }

  lemma {:induction false} RunsKeepInv(run: seq<State>, i: nat)
    requires IsRun(run) && i < |run|
    ensures Inv(run[i])
  {
    if i == 0 {
      InitInv(run[0]);
    } else {
      RunsKeepInv(run, i - 1);
      assert NextAt(run, i - 1);
      NextKeepsInv(run[i - 1], run[i]);
    }
  }

  lemma ReachableInv(s: State)
    requires Reachable(s)
    ensures Inv(s)
  {
    var run :| IsRun(run) && run[|run| - 1] == s;
    RunsKeepInv(run, |run| - 1);
  }

  /** The limiter holds exactly the tokens of connections admitted and not yet released, and
      never more than it has room for; giving one back never blocks. */
  lemma LimiterConserves(s: State)
    requires Reachable(s)
    ensures s.g.limiter == Count(s.procs, HasToken) <= s.g.maxConns
    ensures forall p :: HasToken(s.Pc(p)) ==> s.g.limiter > 0
  {
    ReachableInv(s);
    forall p | HasToken(s.Pc(p)) ensures s.g.limiter > 0 {
      CountAtLeast(s.procs, {p}, HasToken);
    }
  }

  /** A connection that was admitted has given its token back exactly once when its handler
      returns, however often established was called; a rejected one gives back none. */
  lemma ReleasedExactlyOnce(s: State, p: Pid)
    requires Reachable(s) && (s.Pc(p).Handling? || s.Pc(p).Returning?)
    ensures s.Pc(p).releases <= 1
    ensures s.Pc(p).Returning? ==> s.Pc(p).releases == if s.Pc(p).admitted then 1 else 0
  {
    ReachableInv(s);
    assert PcOk(s.g, s.Pc(p));
  }

  /** activeConn.Add never happens once activeConn.Wait has begun. */
  lemma AddNeverFollowsWait(s: State, s': State)
    requires Reachable(s) && Next(s, s') && s'.g.activeConn > s.g.activeConn
    ensures !s.g.waiting && !s'.g.waiting
  {
    ReachableInv(s);
    var p :| Step(s, p, s');
    StepLawful(s.g, s.Pc(p), s'.g, s'.Pc(p));
    CountAtLeast(s.procs, {p}, InAccept);
  }

  /** The counters of the two wait groups are the numbers of loops and connections alive,
      and after the wait has begun no accept loop is. */
  lemma WaitGroupsCount(s: State)
    requires Reachable(s)
    ensures s.g.acceptWG == Count(s.procs, InAccept)
    ensures s.g.activeConn == Count(s.procs, InFlight)
    ensures s.g.waiting ==> forall p :: !InAccept(s.Pc(p))
    ensures forall p :: InFlight(s.Pc(p)) ==> s.g.activeConn > 0
  {
    ReachableInv(s);
    forall p | s.g.waiting ensures !InAccept(s.Pc(p)) {
      if InAccept(s.Pc(p)) {
        CountAtLeast(s.procs, {p}, InAccept);
      }
    }
    forall p | InFlight(s.Pc(p)) ensures s.g.activeConn > 0 {
      CountAtLeast(s.procs, {p}, InFlight);
    }
  }

  /** However often Shutdown and cleanupStartFailure run, stopCh and the pool are closed once. */
  lemma StoppedOnce(s: State)
    requires Reachable(s)
    ensures s.g.stopCloses <= 1 && s.g.poolCloses <= 1
    ensures s.g.stopped <==> s.g.stopCloses == 1
    ensures s.g.poolClosed <==> s.g.poolCloses == 1
  {
    ReachableInv(s);
  }

  // ---- what is done stays done ----

  predicate Onward(g: Shared, g': Shared) {
    && (g.stopped ==> g'.stopped) && (g.listenersClosed ==> g'.listenersClosed)
    && (g.poolClosed ==> g'.poolClosed) && (g.ctxDone ==> g'.ctxDone)
  }

  lemma StepGoesOn(g: Shared, pc: Pc, g': Shared, pc': Pc)
    requires LocalStep(g, pc, g', pc')
    ensures Onward(g, g')
  {
    var r :| StepIn(r, g, pc, g', pc');
    if r.Stop? {
      StopGoesOn(g, pc, g', pc');
    } else {
      OthersGoOn(r, g, pc, g', pc');
    }
  }

  lemma StopGoesOn(g: Shared, pc: Pc, g': Shared, pc': Pc)
    requires StopStep(g, pc, g', pc')
    ensures Onward(g, g')
  {
  }

  lemma OthersGoOn(r: Routine, g: Shared, pc: Pc, g': Shared, pc': Pc)
    requires StepIn(r, g, pc, g', pc') && !r.Stop?
    ensures Onward(g, g')
  {
  }

  lemma NextGoesOn(s: State, s': State)
    requires Next(s, s')
    ensures Onward(s.g, s'.g)
  {
    if p :| Step(s, p, s') {
      StepGoesOn(s.g, s.Pc(p), s'.g, s'.Pc(p));
    }
  }

  /** stopCh, the listeners, the pool and the context are never opened again. */
  lemma {:induction false} RunsGoOn(run: seq<State>, i: nat, j: nat)
    requires IsRun(run) && i <= j < |run|
    ensures Onward(run[i].g, run[j].g)
  {
    if i < j {
      RunsGoOn(run, i, j - 1);
      assert NextAt(run, j - 1);
      NextGoesOn(run[j - 1], run[j]);
    }
  }

  // ---- Shutdown does not hang on the accept loops ----

  function AcceptRank(pc: Pc): nat {
    if pc.AcceptedOne? then 4
    else if pc.AcceptSpawn? || pc.Backoff? then 3
    else if pc.Accepting? then 2
    else if pc.AcceptReturn? then 1
    else 0
  }

  /** Goroutine `a` takes the step from s to s'. */
  ghost predicate Moves(s: State, a: Pid, s': State) {
    Step(s, a, s') || exists q :: Go(s, a, q, s')
  }

  /** Whoever waits for the accept loops waits for goroutines that can move, and with the
      listeners closed each of their moves brings the end of the loop nearer. */
  lemma AcceptLoopsEnd(s: State, p: Pid, a: Pid)
    requires Reachable(s) && s.Pc(p).WaitAccept? && InAccept(s.Pc(a))
    ensures exists s' :: Moves(s, a, s')
    ensures forall s' :: Moves(s, a, s') ==> AcceptRank(s'.Pc(a)) < AcceptRank(s.Pc(a))
  {
    ReachableInv(s);
    assert PcOk(s.g, s.Pc(p)) && PcOk(s.g, s.Pc(a));
    CountAtLeast(s.procs, {a}, InAccept);
    AcceptCanMove(s, a);
    forall s' | Moves(s, a, s') ensures AcceptRank(s'.Pc(a)) < AcceptRank(s.Pc(a)) {
      if Step(s, a, s') {
        AcceptRanks(s.g, s.Pc(a), s'.g, s'.Pc(a));
      }
    }
  }

  lemma AcceptRanks(g: Shared, pc: Pc, g': Shared, pc': Pc)
    requires LocalStep(g, pc, g', pc') && AcceptRank(pc) > 0 && g.listenersClosed
    ensures AcceptRank(pc') < AcceptRank(pc)
  {
    var r :| StepIn(r, g, pc, g', pc');
  }

  lemma AcceptCanMove(s: State, a: Pid)
    requires Inv(s) && AcceptRank(s.Pc(a)) > 0 && s.g.listenersClosed
    ensures exists s' :: Moves(s, a, s')
  {
    var pc, g := s.Pc(a), s.g;
    if pc.AcceptSpawn? {
      var q := FreshPid(s.procs);
      var s' := State(g, s.procs[a := Accepting][q := Queueing]);
      assert a in s.procs;
      assert Go(s, a, q, s') && Moves(s, a, s');
    } else {
      CountAtLeast(s.procs, {a}, InAccept);
      var g' := if pc.AcceptedOne? then g.(activeConn := g.activeConn + 1)
                else if pc.AcceptReturn? then g.(acceptWG := g.acceptWG - 1)
                else g;
      var pc' := if pc.AcceptedOne? then AcceptSpawn else if pc.Backoff? then Accepting
                 else if pc.Accepting? then AcceptReturn else Gone;
      var s' := State(g', s.procs[a := pc']);
      assert StepIn(AcceptLoop, g, pc, g', pc');
      assert Step(s, a, s') && Moves(s, a, s');
    }
  }

  /** There is always a goroutine that has not been started. */
  lemma FreshPid(procs: map<Pid, Pc>) returns (q: Pid)
    ensures q !in procs
  {
    q := Above(procs.Keys);
  }

  lemma {:induction false} Above(pids: set<Pid>) returns (q: Pid)
    ensures forall p: Pid :: p in pids ==> p < q
  {
    if pids == {} {
      q := 0;
    } else {
      var top :| top in pids;
      var rest := Above(pids - {top});
      q := if top < rest then rest else top + 1;
      forall p | p in pids ensures p < q {
        assert p == top || p in pids - {top};
      }
    }
  }
}
