/** The two counting semaphores of the pool, and what the pool keeps on record about
    the clients it may hand out. */
module PoolLimits {
  import opened Common
  import opened Pool
  import opened PoolOwnership

  predicate HasDialSlot(pc: Pc) {
    pc.Dialling? || pc.DialRegister? || pc.DialDone? || pc.DialFailed?
  }

  predicate Probing(pc: Pc) {
    pc.HealthProbe? || pc.HealthMark? || pc.HealthUntrack? || pc.HealthShut? || pc.HealthEnd?
  }

  /** Holding a client, or past the last check that could still refuse to create one. */
  predicate InPlay(pc: Pc) {
    Hand(pc).Some? || pc.DialSlot? || pc.Dialling?
  }

  /** The clients the pool and its callers still have to deal with. */
  ghost function Open(s: State): nat {
    |s.g.connections| + Count(s.procs, InPlay)
  }

  function One(b: bool): int {
    if b then 1 else 0
  }

  ghost predicate Limited(s: State) {
    && s.g.dialSem == Count(s.procs, HasDialSlot) && s.g.dialSem <= MAX_CONCURRENT_DIALS
    && s.g.probes == Count(s.procs, Probing) && s.g.probes <= MAX_HEALTH_CHECK_CONCURRENCY
  }

  /** A client in hand that is on record: registered, and not past the forgetting. */
  predicate OnRecord(pc: Pc) {
    Hand(pc).Some? && !pc.DialRegister? && !pc.Shut?
  }

  ghost predicate Recorded(g: Shared, c: Client) {
    c in g.timedOut || (c in g.lastUsed && c in g.healthStatus)
  }

  ghost predicate Tracked(s: State) {
    && (forall c :: c in s.g.connections ==> Recorded(s.g, c))
    && (forall p :: OnRecord(s.Pc(p)) ==> Recorded(s.g, s.Pc(p).c))
    && (forall p :: s.Pc(p).HealthUntrack? || s.Pc(p).HealthShut? ==> s.Pc(p).c in s.g.timedOut)
    && s.g.killed <= s.g.timedOut
  }

  // ---- one step ----

  ghost predicate Counts(g: Shared, pc: Pc, g': Shared, pc': Pc) {
    && g'.dialSem == g.dialSem + One(HasDialSlot(pc')) - One(HasDialSlot(pc))
    && (g'.dialSem <= g.dialSem || g'.dialSem <= MAX_CONCURRENT_DIALS)
    && g'.probes == g.probes + One(Probing(pc')) - One(Probing(pc))
    && g'.probes <= g.probes
    && Shrinks(g, pc, g', pc')
  }

  ghost predicate Shrinks(g: Shared, pc: Pc, g': Shared, pc': Pc) {
    g.closed ==>
      && g'.closed
      && |g'.connections| + One(InPlay(pc')) <= |g.connections| + One(InPlay(pc)) - One(pc.Shut?)
  }

  /** A client leaves the records only through the goroutine that forgets it. */
  ghost predicate Remembers(g: Shared, pc: Pc, g': Shared, pc': Pc) {
    && g.timedOut <= g'.timedOut
    && (forall c :: Recorded(g, c) && !Recorded(g', c) ==> pc.Untrack? && pc.c == c && pc'.Shut?)
    && (OnRecord(pc') ==>
          Recorded(g', pc'.c) || (OnRecord(pc) && pc.c == pc'.c && !pc.Untrack?) || pc'.c in g.connections)
    && (forall c :: c in g'.connections ==> c in g.connections || (OnRecord(pc) && pc.c == c && !pc.Untrack?))
    && (pc'.HealthUntrack? || pc'.HealthShut? ==>
          pc'.c in g'.timedOut || ((pc.HealthUntrack? || pc.HealthShut?) && pc.c == pc'.c))
    && (forall c :: c in g'.killed ==> c in g.killed || (pc.HealthShut? && pc.c == c))
  }

  ghost predicate Lawful(g: Shared, pc: Pc, g': Shared, pc': Pc) {
    Counts(g, pc, g', pc') && Remembers(g, pc, g', pc')
  }

  lemma GetLawful(g: Shared, pc: Pc, g': Shared, pc': Pc)
    requires GetStep(g, pc, g', pc')
    ensures Lawful(g, pc, g', pc')
  {
    GetCounts(g, pc, g', pc');
    GetRemembers(g, pc, g', pc');
  }

  lemma GetCounts(g: Shared, pc: Pc, g': Shared, pc': Pc)
    requires GetStep(g, pc, g', pc')
    ensures Counts(g, pc, g', pc')
  {
  }

  lemma GetRemembers(g: Shared, pc: Pc, g': Shared, pc': Pc)
    requires GetStep(g, pc, g', pc')
    ensures Remembers(g, pc, g', pc')
  {
  }

  lemma DialLawful(g: Shared, pc: Pc, g': Shared, pc': Pc)
    requires DialStep(g, pc, g', pc')
    ensures Lawful(g, pc, g', pc')
  {
    DialCounts(g, pc, g', pc');
    DialRemembers(g, pc, g', pc');
  }

  lemma DialCounts(g: Shared, pc: Pc, g': Shared, pc': Pc)
    requires DialStep(g, pc, g', pc')
    ensures Counts(g, pc, g', pc')
  {
    DialShrinks(g, pc, g', pc');
  }

  lemma DialShrinks(g: Shared, pc: Pc, g': Shared, pc': Pc)
    requires DialStep(g, pc, g', pc')
    ensures Shrinks(g, pc, g', pc')
  {
  }

  lemma DialRemembers(g: Shared, pc: Pc, g': Shared, pc': Pc)
    requires DialStep(g, pc, g', pc')
    ensures Remembers(g, pc, g', pc')
  {
  }

  lemma PutLawful(g: Shared, pc: Pc, g': Shared, pc': Pc)
    requires PutStep(g, pc, g', pc')
    ensures Lawful(g, pc, g', pc')
  {
    PutCounts(g, pc, g', pc');
    PutRemembers(g, pc, g', pc');
  }

  lemma PutCounts(g: Shared, pc: Pc, g': Shared, pc': Pc)
    requires PutStep(g, pc, g', pc')
    ensures Counts(g, pc, g', pc')
  {
    PutShrinks(g, pc, g', pc');
  }

  lemma PutShrinks(g: Shared, pc: Pc, g': Shared, pc': Pc)
    requires PutStep(g, pc, g', pc')
    ensures Shrinks(g, pc, g', pc')
  {
  }

  lemma PutRemembers(g: Shared, pc: Pc, g': Shared, pc': Pc)
    requires PutStep(g, pc, g', pc')
    ensures Remembers(g, pc, g', pc')
  {
  }

  lemma ForgetLawful(g: Shared, pc: Pc, g': Shared, pc': Pc)
    requires ForgetStep(g, pc, g', pc')
    ensures Lawful(g, pc, g', pc')
  {
  }

  lemma CloseLawful(g: Shared, pc: Pc, g': Shared, pc': Pc)
    requires CloseStep(g, pc, g', pc')
    ensures Lawful(g, pc, g', pc')
  {
  }

  lemma SweepLawful(g: Shared, pc: Pc, g': Shared, pc': Pc)
    requires SweepStep(g, pc, g', pc')
    ensures Lawful(g, pc, g', pc')
  {
    assert Counts(g, pc, g', pc');
  }

  lemma CheckerLawful(g: Shared, pc: Pc, g': Shared, pc': Pc)
    requires CheckerStep(g, pc, g', pc')
    ensures Lawful(g, pc, g', pc')
  {
  }

  lemma ProberLawful(g: Shared, pc: Pc, g': Shared, pc': Pc)
    requires ProberStep(g, pc, g', pc') && (pc.HealthUntrack? ==> pc.c in g.timedOut)
    ensures Lawful(g, pc, g', pc')
  {
    ProberCounts(g, pc, g', pc');
  }

  lemma ProberCounts(g: Shared, pc: Pc, g': Shared, pc': Pc)
    requires ProberStep(g, pc, g', pc')
    ensures Counts(g, pc, g', pc')
  {
  }

  lemma StepLawful(g: Shared, pc: Pc, g': Shared, pc': Pc)
    requires LocalStep(g, pc, g', pc') && (pc.HealthUntrack? ==> pc.c in g.timedOut)
    ensures Lawful(g, pc, g', pc')
  {
    var r :| StepIn(r, g, pc, g', pc');
    match r
    case Get => GetLawful(g, pc, g', pc');
    case CreateConnection => DialLawful(g, pc, g', pc');
    case Put => PutLawful(g, pc, g', pc');
    case Forget => ForgetLawful(g, pc, g', pc');
    case CloseAll => CloseLawful(g, pc, g', pc');
    case Cleanup => SweepLawful(g, pc, g', pc');
    case Check => CheckerLawful(g, pc, g', pc');
    case Probe => ProberLawful(g, pc, g', pc');
  }

  // ---- the whole table ----

  lemma StepKeepsTracked(s: State, p: Pid, s': State)
    requires Tracked(s) && OnePlace(s) && Step(s, p, s')
    ensures Tracked(s')
  {
    StepLawful(s.g, s.Pc(p), s'.g, s'.Pc(p));
    assert forall q :: q != p ==> s'.Pc(q) == s.Pc(q);
    forall c: Client | c in s'.g.connections ensures Recorded(s'.g, c) {
      assert InHand(s, p).Some? ==> InHand(s, p).value !in s.g.connections;
    }
    forall q | OnRecord(s'.Pc(q)) ensures Recorded(s'.g, s'.Pc(q).c) {
      if q != p {
        assert InHand(s, q) == Some(s.Pc(q).c);
        assert InHand(s, p) != InHand(s, q);
      } else {
        assert InHand(s, p).Some? ==> InHand(s, p).value !in s.g.connections;
      }
    }
  }

  lemma StepKeepsLimited(s: State, p: Pid, s': State)
    requires Limited(s) && Tracked(s) && Step(s, p, s')
    ensures Limited(s')
  {
    StepLawful(s.g, s.Pc(p), s'.g, s'.Pc(p));
    CountMove(s.procs, p, s'.Pc(p), HasDialSlot);
    CountMove(s.procs, p, s'.Pc(p), Probing);
  }

  lemma StepShrinks(s: State, p: Pid, s': State)
    requires Tracked(s) && Step(s, p, s') && s.g.closed
    ensures s'.g.closed && Open(s') <= Open(s) - One(s.Pc(p).Shut?)
  {
    StepLawful(s.g, s.Pc(p), s'.g, s'.Pc(p));
    CountMove(s.procs, p, s'.Pc(p), InPlay);
  }

  lemma SpawnShrinks(s: State, p: Pid, q: Pid, c: Client, s': State)
    requires Spawn(s, p, q, c, s')
    ensures s'.g.closed == s.g.closed && Open(s') <= Open(s)
  {
    var round := HealthRound(s.Pc(p).pending - {c});
    CountMove(s.procs, p, round, InPlay);
    CountMove(s.procs[p := round], q, HealthProbe(c), InPlay);
  }

  /** Once the pool is closed the number of clients in play never grows, and every Close
      brings it down: the drain loops end. */
  lemma ClosedOnlyShrinks(s: State, s': State)
    requires Tracked(s) && Next(s, s') && s.g.closed
    ensures s'.g.closed && Open(s') <= Open(s)
    ensures forall p :: Step(s, p, s') && s.Pc(p).Shut? ==> Open(s') < Open(s)
  {
    forall p | Step(s, p, s') ensures s'.g.closed && Open(s') <= Open(s) - One(s.Pc(p).Shut?) {
      StepShrinks(s, p, s');
    }
    if p, q, c :| Spawn(s, p, q, c, s') {
      SpawnShrinks(s, p, q, c, s');
    }
  }

  lemma SpawnKeepsLimits(s: State, p: Pid, q: Pid, c: Client, s': State)
    requires Limited(s) && Tracked(s) && Spawn(s, p, q, c, s')
    ensures Limited(s') && Tracked(s')
  {
    var round := HealthRound(s.Pc(p).pending - {c});
    CountMove(s.procs, p, round, HasDialSlot);
    CountMove(s.procs, p, round, Probing);
    CountMove(s.procs[p := round], q, HealthProbe(c), HasDialSlot);
    CountMove(s.procs[p := round], q, HealthProbe(c), Probing);
    assert forall r :: r != p && r != q ==> s'.Pc(r) == s.Pc(r);
  }

  lemma NextKeepsLimits(s: State, s': State)
    requires Limited(s) && Tracked(s) && OnePlace(s) && Next(s, s')
    ensures Limited(s') && Tracked(s')
  {
    if Tick(s, s') {
      assert forall p :: s'.Pc(p) == s.Pc(p);
    } else if p :| Step(s, p, s') {
      StepKeepsTracked(s, p, s');
      StepKeepsLimited(s, p, s');
    } else {
      var p, q, c :| Spawn(s, p, q, c, s');
      SpawnKeepsLimits(s, p, q, c, s');
    }
  }

  lemma InitLimits(s: State)
    requires Init(s)
    ensures Limited(s) && Tracked(s)
  {
    assert Where(s.procs, HasDialSlot) == {};
    assert Where(s.procs, Probing) == {};
  }
}
