/** Closing the pool.  Put re-reads `closed` after its send so that no idle client is left
    behind in a channel nobody will drain; the sweeper re-sends without re-reading it. */
module PoolClosing {
  import opened Common
  import opened Pool

  /** On the sweeper's path through the code. */
  predicate Sweeps(pc: Pc) {
    || pc.SweepWait? || pc.SweepCount? || pc.SweepLoop? || pc.SweepInspect? || pc.SweepResend?
    || ((pc.Untrack? || pc.Shut?) && pc.after.SweepOn?)
  }

  /** Past a send or past the closing swap, and still going to look at the channel. */
  predicate Answerable(pc: Pc) {
    || pc.PutRecheck? || pc.PutDrain? || pc.CloseSignal? || pc.CloseDrain?
    || ((pc.Untrack? || pc.Shut?) && (pc.after.DrainOn? || pc.after.CloseOn?))
  }

  ghost predicate Unanswered(s: State) {
    forall p :: !Answerable(s.Pc(p))
  }

  ghost predicate SweeperAlone(s: State) {
    && (forall p :: Sweeps(s.Pc(p)) ==> p == SWEEPER)
    && (Sweeps(s.Pc(SWEEPER)) || s.Pc(SWEEPER).Stopped?)
  }

  /** The last send is still the newest client in the channel. */
  ghost predicate LastSendStands(g: Shared) {
    g.lastOp.Sent? ==> g.connections != [] && g.connections[|g.connections| - 1] == g.lastOp.c
  }

  /** What is left in a closed pool once nobody is going to look again. */
  ghost predicate Leftover(s: State) {
    if s.g.lastOp.Sent? then
      && s.g.lastOp.bySweeper && s.g.lastOp.whileClosed
      && s.g.connections == [s.g.lastOp.c]
      && Hand(s.Pc(SWEEPER)) == None
    else
      s.g.connections == []
  }

  /** done is closed by the one goroutine that won the swap. */
  ghost predicate OneSignal(s: State) {
    && (!s.g.closed ==> !s.g.done && forall p :: s.Pc(p) != CloseSignal)
    && (s.g.done ==> forall p :: s.Pc(p) != CloseSignal)
    && (forall p, q :: s.Pc(p) == CloseSignal && s.Pc(q) == CloseSignal ==> p == q)
  }

  ghost predicate Closing(s: State) {
    && SweeperAlone(s)
    && LastSendStands(s.g)
    && (s.g.closed && Unanswered(s) ==> Leftover(s))
    && OneSignal(s)
  }

  // ---- one step ----

  ghost predicate LeavesChannel(g: Shared, pc: Pc, g': Shared, pc': Pc) {
    && g'.connections == g.connections && g'.lastOp == g.lastOp
    && (Sweeps(pc) && Hand(pc) == None ==> Hand(pc') == None)
  }

  ghost predicate Receives(g: Shared, g': Shared) {
    g.connections != [] && g'.connections == g.connections[1..] && g'.lastOp == Received
  }

  ghost predicate Sends(g: Shared, pc: Pc, g': Shared, pc': Pc) {
    && Hand(pc).Some? && Hand(pc') == None
    && g'.connections == g.connections + [Hand(pc).value]
    && g'.lastOp == Sent(Hand(pc).value, Sweeps(pc), g.closed)
    && (Sweeps(pc) || Answerable(pc'))
  }

  ghost predicate Dutiful(g: Shared, pc: Pc, g': Shared, pc': Pc) {
    && (LeavesChannel(g, pc, g', pc') || Receives(g, g') || Sends(g, pc, g', pc'))
    && Orderly(g, pc, g', pc')
  }

  /** Who sweeps, who closes, and who stops looking at the channel. */
  ghost predicate Orderly(g: Shared, pc: Pc, g': Shared, pc': Pc) {
    && (Sweeps(pc') ==> Sweeps(pc))
    && (Sweeps(pc) ==> Sweeps(pc') || pc'.Stopped?) && !pc.Stopped?
    && (g.closed ==> g'.closed)
    && (!g.closed && g'.closed ==> pc' == CloseSignal)
    && (g.closed && Answerable(pc) && !Answerable(pc') ==> g'.connections == g.connections == [])
    && (pc' == CloseSignal ==> !g.closed && g'.closed)
    && (g'.done == (g.done || pc == CloseSignal))
  }

  lemma GetDutiful(g: Shared, pc: Pc, g': Shared, pc': Pc)
    requires GetStep(g, pc, g', pc')
    ensures Dutiful(g, pc, g', pc')
  {
  }

  lemma DialDutiful(g: Shared, pc: Pc, g': Shared, pc': Pc)
    requires DialStep(g, pc, g', pc')
    ensures Dutiful(g, pc, g', pc')
  {
  }

  lemma PutDutiful(g: Shared, pc: Pc, g': Shared, pc': Pc)
    requires PutStep(g, pc, g', pc')
    ensures Dutiful(g, pc, g', pc')
  {
    PutOrderly(g, pc, g', pc');
  }

  lemma PutOrderly(g: Shared, pc: Pc, g': Shared, pc': Pc)
    requires PutStep(g, pc, g', pc')
    ensures Orderly(g, pc, g', pc')
  {
    PutSweepsNot(g, pc, g', pc');
  }

  lemma PutSweepsNot(g: Shared, pc: Pc, g': Shared, pc': Pc)
    requires PutStep(g, pc, g', pc')
    ensures !Sweeps(pc) && !Sweeps(pc') && !pc.Stopped? && pc' != CloseSignal && pc != CloseSignal
    ensures g'.closed == g.closed && g'.done == g.done
  {
  }

  lemma ForgetDutiful(g: Shared, pc: Pc, g': Shared, pc': Pc)
    requires ForgetStep(g, pc, g', pc')
    ensures Dutiful(g, pc, g', pc')
  {
  }

  lemma CloseDutiful(g: Shared, pc: Pc, g': Shared, pc': Pc)
    requires CloseStep(g, pc, g', pc')
    ensures Dutiful(g, pc, g', pc')
  {
  }

  lemma SweepDutiful(g: Shared, pc: Pc, g': Shared, pc': Pc)
    requires SweepStep(g, pc, g', pc')
    ensures Dutiful(g, pc, g', pc')
  {
  }

  lemma CheckerDutiful(g: Shared, pc: Pc, g': Shared, pc': Pc)
    requires CheckerStep(g, pc, g', pc')
    ensures Dutiful(g, pc, g', pc')
  {
  }

  lemma ProberDutiful(g: Shared, pc: Pc, g': Shared, pc': Pc)
    requires ProberStep(g, pc, g', pc')
    ensures Dutiful(g, pc, g', pc')
  {
  }

  lemma StepDutiful(g: Shared, pc: Pc, g': Shared, pc': Pc)
    requires LocalStep(g, pc, g', pc')
    ensures Dutiful(g, pc, g', pc')
  {
    var r :| StepIn(r, g, pc, g', pc');
    match r
    case Get => GetDutiful(g, pc, g', pc');
    case CreateConnection => DialDutiful(g, pc, g', pc');
    case Put => PutDutiful(g, pc, g', pc');
    case Forget => ForgetDutiful(g, pc, g', pc');
    case CloseAll => CloseDutiful(g, pc, g', pc');
    case Cleanup => SweepDutiful(g, pc, g', pc');
    case Check => CheckerDutiful(g, pc, g', pc');
    case Probe => ProberDutiful(g, pc, g', pc');
  }

  // ---- the whole table ----

  /** If nobody is answerable after the step, then either nobody was before, or p was the
      last and left an empty channel. */
  lemma LastToLeave(s: State, p: Pid, s': State)
    requires s'.procs == s.procs[p := s'.Pc(p)] && Dutiful(s.g, s.Pc(p), s'.g, s'.Pc(p))
    requires s'.g.closed && Unanswered(s')
    ensures s.g.closed
    ensures Unanswered(s) || s'.g.connections == s.g.connections == []
  {
    assert !Answerable(s'.Pc(p));
    if !Answerable(s.Pc(p)) {
      forall q ensures !Answerable(s.Pc(q)) {
        assert !Answerable(s'.Pc(q));
      }
    }
  }

  lemma StepKeepsLeftover(s: State, p: Pid, s': State)
    requires Closing(s)
    requires s'.procs == s.procs[p := s'.Pc(p)] && Dutiful(s.g, s.Pc(p), s'.g, s'.Pc(p))
    requires s'.g.closed && Unanswered(s')
    ensures Leftover(s')
  {
    LastToLeave(s, p, s');
    assert !Answerable(s'.Pc(p));
    if Unanswered(s) && p != SWEEPER {
      assert !Sweeps(s.Pc(p));
      assert s'.Pc(SWEEPER) == s.Pc(SWEEPER);
    }
    assert Sweeps(s.Pc(p)) ==> p == SWEEPER;
  }

  lemma StepKeepsOneSignal(s: State, p: Pid, s': State)
    requires OneSignal(s)
    requires s'.procs == s.procs[p := s'.Pc(p)] && Dutiful(s.g, s.Pc(p), s'.g, s'.Pc(p))
    ensures OneSignal(s')
  {
    assert forall q :: q != p ==> s'.Pc(q) == s.Pc(q);
  }

  lemma StepKeepsClosing(s: State, p: Pid, s': State)
    requires Closing(s) && Step(s, p, s')
    ensures Closing(s')
  {
    StepDutiful(s.g, s.Pc(p), s'.g, s'.Pc(p));
    assert forall q :: q != p ==> s'.Pc(q) == s.Pc(q);
    StepKeepsOneSignal(s, p, s');
    if s'.g.closed && Unanswered(s') {
      StepKeepsLeftover(s, p, s');
    }
  }

  lemma SpawnKeepsClosing(s: State, p: Pid, q: Pid, c: Client, s': State)
    requires Closing(s) && Spawn(s, p, q, c, s')
    ensures Closing(s')
  {
    assert forall r :: r != p && r != q ==> s'.Pc(r) == s.Pc(r);
    if s'.g.closed && Unanswered(s') {
      forall r ensures !Answerable(s.Pc(r)) {
        assert !Answerable(s'.Pc(r));
      }
      assert Hand(s'.Pc(SWEEPER)) == Hand(s.Pc(SWEEPER));
    }
  }

  lemma NextKeepsClosing(s: State, s': State)
    requires Closing(s) && Next(s, s')
    ensures Closing(s')
  {
    if Tick(s, s') {
      assert forall p :: s'.Pc(p) == s.Pc(p);
      if s'.g.closed && Unanswered(s') {
        forall r ensures !Answerable(s.Pc(r)) {
          assert !Answerable(s'.Pc(r));
        }
      }
    } else if p :| Step(s, p, s') {
      StepKeepsClosing(s, p, s');
    } else {
      var p, q, c :| Spawn(s, p, q, c, s');
      SpawnKeepsClosing(s, p, q, c, s');
    }
  }

  lemma InitClosing(s: State)
    requires Init(s)
    ensures Closing(s)
  {
  }
}
