/** The SSH connection pool as a state machine (pool.go).

    Any number of goroutines call Get, Put and closeAll; one goroutine sweeps idle
    connections and one runs health checks through short-lived probers.  There is no
    global lock, so every channel operation, every section under `lastUsedMutex` and
    every access to the atomic `closed` flag is one step of the goroutine that makes it. */
module Pool {
  import opened Common

  /** An SSH client, by identity.  Clients are numbered in order of creation from 1. */
  type Client = nat
  const NIL: Client := 0

  type Pid = nat
  const SWEEPER: Pid := 0  // the goroutine running cleanupIdleConnections
  const CHECKER: Pid := 1  // the goroutine running startHealthChecks

  /** Nanoseconds on a clock that never runs backwards. */
  type Time = int
  const MINUTE: Time := 60_000_000_000
  const HOUR: Time := 60 * MINUTE

  const MAX_CONCURRENT_DIALS: nat := 10
  const MAX_HEALTH_CHECK_CONCURRENCY: nat := 8

  datatype Health = Health(healthy: bool, lastChecked: Time)

  /** What a goroutine does once `forget` returns. */
  datatype After =
    | Return
    | Redial
    | DrainOn         // Put's second look at a closed pool
    | CloseOn         // closeAll's loop
    | SweepOn(i: nat, n: nat)

  /** Where a goroutine is. */
  datatype Pc =
    | Idle
    | Using(c: Client)                          // the caller holds c
    // Get
    | GetTake
    | GetInspect(c: Client)
    | GetProbe(c: Client)
    | GetRefresh(c: Client)
    // createConnection
    | DialCheck
    | DialSlot
    | Dialling
    | DialRegister(c: Client)
    | DialDone(c: Client)
    | DialFailed
    // Put
    | PutCheck(c: Client)
    | PutTrack(c: Client)
    | PutSend(c: Client)
    | PutRecheck
    | PutDrain
    // forget
    | Untrack(c: Client, after: After)
    | Shut(c: Client, after: After)
    // closeAll
    | CloseSignal
    | CloseDrain
    // cleanupIdleConnections
    | SweepWait
    | SweepCount
    | SweepLoop(i: nat, n: nat)
    | SweepInspect(c: Client, i: nat, n: nat)
    | SweepResend(c: Client, i: nat, n: nat)
    // startHealthChecks and its probers
    | HealthWait
    | HealthRound(pending: set<Client>)
    | HealthJoin
    | HealthProbe(c: Client)
    | HealthMark(c: Client, ok: bool)
    | HealthUntrack(c: Client)
    | HealthShut(c: Client)
    | HealthEnd
    | Stopped

  /** The last operation on the channel. */
  datatype ChanOp = NoOp | Received | Sent(c: Client, bySweeper: bool, whileClosed: bool)

  /** What the goroutines share: the pool, the world around it, and some history. */
  datatype Shared = Shared(
    connections: seq<Client>,
    maxSize: nat,
    lastUsed: map<Client, Time>,
    healthStatus: map<Client, Health>,
    dialSem: nat,
    closed: bool,
    done: bool,
    // the world around the pool
    now: Time,
    next: Client,             // the next client to be created
    shut: set<Client>,        // clients on which Close was called
    // history
    timedOut: set<Client>,    // a health probe on the client timed out
    killed: set<Client>,      // closed by a health prober
    lastOp: ChanOp,
    probes: nat               // probers in flight
  ) {
    function Pop(): Shared
      requires connections != []
    {
      this.(connections := connections[1..], lastOp := Received)
    }

    function Push(c: Client, bySweeper: bool): Shared {
      this.(connections := connections + [c], lastOp := Sent(c, bySweeper, closed))
    }

    function Forgotten(c: Client): Shared {
      this.(lastUsed := lastUsed - {c}, healthStatus := healthStatus - {c})
    }
  }

  datatype State = State(g: Shared, procs: map<Pid, Pc>) {
    function Pc(p: Pid): Pc {
      if p in procs then procs[p] else Idle
    }
  }

  /** The client a goroutine has in its hands: it took it from the channel, created it
      or was given it, and has not passed it on.  Health probers hold nothing. */
  function Hand(pc: Pc): Option<Client> {
    if || pc.Using?
       || pc.GetInspect? || pc.GetProbe? || pc.GetRefresh?
       || pc.DialRegister? || pc.DialDone?
       || pc.PutCheck? || pc.PutTrack? || pc.PutSend?
       || pc.Untrack? || pc.Shut?
       || pc.SweepInspect? || pc.SweepResend?
    then Some(pc.c)
    else None
  }

  function Resume(after: After): Pc {
    match after
    case Return => Idle
    case Redial => DialCheck
    case DrainOn => PutDrain
    case CloseOn => CloseDrain
    case SweepOn(i, n) => SweepLoop(i, n)
  }

  // A step of one goroutine takes the shared state from g to g' and the goroutine from
  // pc to pc'.

  /** Get, pool.go:98-148. */
  ghost predicate GetStep(g: Shared, pc: Pc, g': Shared, pc': Pc) {
    if pc.Idle? then
      g' == g && pc' == GetTake
    else if pc.GetTake? then
      if g.connections == [] then
        g' == g && pc' == DialCheck
      else
        g' == g.Pop() && pc' == if g.connections[0] == NIL then DialCheck else GetInspect(g.connections[0])
    else if pc.GetInspect? then
      var health := g.healthStatus;
      var recent := pc.c in health && g.now - health[pc.c].lastChecked < MINUTE && health[pc.c].healthy;
      && g' == g.(lastUsed := g.lastUsed[pc.c := g.now])
      && pc' == if recent then Using(pc.c) else GetProbe(pc.c)
    else if pc.GetProbe? then
      // a closed client never answers a keepalive
      && g' == g
      && ((pc.c !in g.shut && pc' == GetRefresh(pc.c)) || pc' == Untrack(pc.c, Redial))
    else if pc.GetRefresh? then
      && g' == g.(healthStatus := g.healthStatus[pc.c := Health(true, g.now)])
      && pc' == Using(pc.c)
    else
      false
  }

  /** createConnection, pool.go:230-292, which a prewarming goroutine begins with
      (pool.go:84-91). */
  ghost predicate DialStep(g: Shared, pc: Pc, g': Shared, pc': Pc) {
    if pc.Idle? then
      g' == g && pc' == DialCheck
    else if pc.DialCheck? then
      g' == g && pc' == if g.closed then Idle else DialSlot
    else if pc.DialSlot? then
      || (g.dialSem < MAX_CONCURRENT_DIALS && g' == g.(dialSem := g.dialSem + 1) && pc' == Dialling)
      || (g' == g && pc' == Idle)  // ctx ended while queueing
    else if pc.Dialling? then
      || (g' == g.(next := g.next + 1) && pc' == DialRegister(g.next))
      || (g' == g && pc' == DialFailed)
    else if pc.DialRegister? then
      && g' == g.(lastUsed := g.lastUsed[pc.c := g.now], healthStatus := g.healthStatus[pc.c := Health(true, g.now)])
      && pc' == DialDone(pc.c)
    else if pc.DialDone? || pc.DialFailed? then
      && g.dialSem > 0
      && g' == g.(dialSem := g.dialSem - 1)
      && pc' == if pc.DialDone? then Using(pc.c) else Idle
    else
      false
  }

  /** Put, pool.go:171-216. */
  ghost predicate PutStep(g: Shared, pc: Pc, g': Shared, pc': Pc) {
    if pc.Using? then
      g' == g && pc' == PutCheck(pc.c)
    else if pc.PutCheck? then
      g' == g && pc' == if g.closed then Untrack(pc.c, Return) else PutTrack(pc.c)
    else if pc.PutTrack? then
      var health := if pc.c in g.healthStatus then g.healthStatus else g.healthStatus[pc.c := Health(true, g.now)];
      g' == g.(lastUsed := g.lastUsed[pc.c := g.now], healthStatus := health) && pc' == PutSend(pc.c)
    else if pc.PutSend? then
      if |g.connections| < g.maxSize then
        g' == g.Push(pc.c, false) && pc' == PutRecheck
      else
        g' == g && pc' == Untrack(pc.c, Return)
    else if pc.PutRecheck? then
      g' == g && pc' == if g.closed then PutDrain else Idle
    else if pc.PutDrain? then
      DrainStep(g, g', pc', PutDrain, DrainOn)
    else
      false
  }

  /** One turn of a drain loop: receive and forget, or leave when the channel is empty. */
  ghost predicate DrainStep(g: Shared, g': Shared, pc': Pc, again: Pc, after: After) {
    if g.connections == [] then
      g' == g && pc' == Idle
    else
      g' == g.Pop() && pc' == if g.connections[0] == NIL then again else Untrack(g.connections[0], after)
  }

  /** forget, pool.go:219-225. */
  ghost predicate ForgetStep(g: Shared, pc: Pc, g': Shared, pc': Pc) {
    if pc.Untrack? then
      g' == g.Forgotten(pc.c) && pc' == Shut(pc.c, pc.after)
    else if pc.Shut? then
      g' == g.(shut := g.shut + {pc.c}) && pc' == Resume(pc.after)
    else
      false
  }

  /** closeAll, pool.go:297-314. */
  ghost predicate CloseStep(g: Shared, pc: Pc, g': Shared, pc': Pc) {
    if pc.Idle? then
      !g.closed && g' == g.(closed := true) && pc' == CloseSignal
    else if pc.CloseSignal? then
      g' == g.(done := true) && pc' == CloseDrain
    else if pc.CloseDrain? then
      DrainStep(g, g', pc', CloseDrain, CloseOn)
    else
      false
  }

  /** cleanupIdleConnections and cleanupIdleConnectionsOnce, pool.go:318-363. */
  ghost predicate SweepStep(g: Shared, pc: Pc, g': Shared, pc': Pc) {
    if pc.SweepWait? then
      g' == g && (pc' == SweepCount || (g.done && pc' == Stopped))
    else if pc.SweepCount? then
      g' == g && pc' == SweepLoop(0, |g.connections|)
    else if pc.SweepLoop? then
      if pc.i < pc.n && g.connections != [] then
        g' == g.Pop() && pc' == SweepInspect(g.connections[0], pc.i, pc.n)
      else
        g' == g && pc' == SweepWait
    else if pc.SweepInspect? then
      var expired := pc.c in g.lastUsed && g.now - g.lastUsed[pc.c] > HOUR;
      g' == g && pc' == if expired then Untrack(pc.c, SweepOn(pc.i + 1, pc.n)) else SweepResend(pc.c, pc.i, pc.n)
    else if pc.SweepResend? then
      if |g.connections| < g.maxSize then
        g' == g.Push(pc.c, true) && pc' == SweepLoop(pc.i + 1, pc.n)
      else
        g' == g && pc' == Untrack(pc.c, SweepOn(pc.i + 1, pc.n))
    else
      false
  }

  /** startHealthChecks, and checkAllConnectionsHealth but for its probers, pool.go:367-435. */
  ghost predicate CheckerStep(g: Shared, pc: Pc, g': Shared, pc': Pc) {
    if pc.HealthWait? then
      g' == g && (pc' == HealthRound(g.lastUsed.Keys) || (g.done && pc' == Stopped))
    else if pc.HealthRound? then
      g' == g && pc.pending == {} && pc' == HealthJoin
    else if pc.HealthJoin? then
      g' == g && g.probes == 0 && pc' == HealthWait
    else
      false
  }

  /** One health prober, pool.go:403-432. */
  ghost predicate ProberStep(g: Shared, pc: Pc, g': Shared, pc': Pc) {
    if pc.HealthProbe? then
      || (g' == g && pc.c !in g.shut && pc' == HealthMark(pc.c, true))
      || (g' == g && pc' == HealthMark(pc.c, false))
      || (g' == g.(timedOut := g.timedOut + {pc.c}) && pc' == HealthUntrack(pc.c))
    else if pc.HealthMark? then
      && g' == (if pc.c in g.lastUsed then g.(healthStatus := g.healthStatus[pc.c := Health(pc.ok, g.now)]) else g)
      && pc' == HealthEnd
    else if pc.HealthUntrack? then
      g' == g.Forgotten(pc.c) && pc' == HealthShut(pc.c)
    else if pc.HealthShut? then
      g' == g.(shut := g.shut + {pc.c}, killed := g.killed + {pc.c}) && pc' == HealthEnd
    else if pc.HealthEnd? then
      g.probes > 0 && g' == g.(probes := g.probes - 1) && pc' == Idle
    else
      false
  }

  /** The code a goroutine is in when it takes a step. */
  datatype Routine = Get | CreateConnection | Put | Forget | CloseAll | Cleanup | Check | Probe

  ghost predicate StepIn(r: Routine, g: Shared, pc: Pc, g': Shared, pc': Pc) {
    match r
    case Get => GetStep(g, pc, g', pc')
    case CreateConnection => DialStep(g, pc, g', pc')
    case Put => PutStep(g, pc, g', pc')
    case Forget => ForgetStep(g, pc, g', pc')
    case CloseAll => CloseStep(g, pc, g', pc')
    case Cleanup => SweepStep(g, pc, g', pc')
    case Check => CheckerStep(g, pc, g', pc')
    case Probe => ProberStep(g, pc, g', pc')
  }

  ghost predicate LocalStep(g: Shared, pc: Pc, g': Shared, pc': Pc) {
    exists r :: StepIn(r, g, pc, g', pc')
  }

  /** One step of goroutine p. */
  ghost predicate Step(s: State, p: Pid, s': State) {
    && s'.procs == s.procs[p := s'.Pc(p)]
    && LocalStep(s.g, s.Pc(p), s'.g, s'.Pc(p))
  }

  /** The checker hands one tracked client to a new prober, pool.go:397-403. */
  ghost predicate Spawn(s: State, p: Pid, q: Pid, c: Client, s': State) {
    && s.Pc(p).HealthRound? && c in s.Pc(p).pending
    && q > CHECKER && s.Pc(q) == Idle
    && s.g.probes < MAX_HEALTH_CHECK_CONCURRENCY
    && s'.g == s.g.(probes := s.g.probes + 1)
    && s'.procs == s.procs[p := HealthRound(s.Pc(p).pending - {c})][q := HealthProbe(c)]
  }

  ghost predicate Tick(s: State, s': State) {
    s.g.now <= s'.g.now && s' == s.(g := s.g.(now := s'.g.now))
  }

  ghost predicate Next(s: State, s': State) {
    || Tick(s, s')
    || (exists p :: Step(s, p, s'))
    || (exists p, q, c :: Spawn(s, p, q, c, s'))
  }

  /** A new pool; the configuration rejects sizes below one (config.go:81-83). */
  ghost predicate Init(s: State) {
    && s.g.maxSize >= 1
    && s.g == Shared([], s.g.maxSize, map[], map[], 0, false, false, s.g.now, 1, {}, {}, {}, NoOp, 0)
    && s.procs == map[SWEEPER := SweepWait, CHECKER := HealthWait]
  }

  ghost predicate NextAt(run: seq<State>, i: int)
    requires 0 <= i < |run| - 1
  {
    Next(run[i], run[i + 1])
  }

  ghost predicate IsRun(run: seq<State>) {
    && run != []
    && Init(run[0])
    && forall i :: 0 <= i < |run| - 1 ==> NextAt(run, i)
  }
}
