/** Admission and shutdown (proxy.go:35-243) as a state machine: the goroutine that starts
    the server, an accept loop for each listener, one goroutine for each connection, and any
    number of calls of Shutdown and cleanupStartFailure. */
module Server {
  import opened Common

  type Pid = nat
  const STARTER: Pid := 0

  datatype Pc =
    | Idle
    // Start: `left` listeners still to be opened
    | Starting(left: nat)
    | StartAdd(left: nat)        // listening, about to add to acceptWG
    | StartSpawn(left: nat)      // added, about to start the accept loop
    // acceptLoop
    | Accepting
    | Backoff
    | AcceptedOne                // about to add to activeConn
    | AcceptSpawn                // added, about to start the handler
    | AcceptReturn               // left the loop, about to call acceptWG.Done
    // serveConn
    | Queueing
    | Rejecting
    | Handling(once: bool, releases: nat)
    | Returning(admitted: bool, releases: nat)  // about to call activeConn.Done
    // Shutdown, and cleanupStartFailure when not graceful
    | StopOnce(graceful: bool)
    | CloseListeners(graceful: bool)
    | WaitAccept(graceful: bool)
    | SpawnWaiter
    | Grace
    | ClosePool
    // the goroutine that waits for the connections
    | WaitBegin
    | WaitActive
    | Gone

  datatype Shared = Shared(
    maxConns: nat,
    limiter: nat,
    acceptWG: nat,
    activeConn: nat,
    starting: bool,           // Start has not returned and has not failed
    listenersClosed: bool,
    ctxDone: bool,
    stopped: bool,            // stopCh is closed
    poolClosed: bool,
    // history
    waiting: bool,            // activeConn.Wait has begun
    stopCloses: nat,
    poolCloses: nat
  )

  datatype State = State(g: Shared, procs: map<Pid, Pc>) {
    function Pc(p: Pid): Pc {
      if p in procs then procs[p] else Idle
    }
  }

  /** Start, proxy.go:57-93.  Opening a listener may fail. */
  ghost predicate StartStep(g: Shared, pc: Pc, g': Shared, pc': Pc) {
    if pc.Starting? then
      if pc.left == 0 then
        g' == g.(starting := false) && pc' == Idle
      else
        || (g' == g && pc' == StartAdd(pc.left))
        || (g' == g.(starting := false) && pc' == StopOnce(false))
    else if pc.StartAdd? then
      g' == g.(acceptWG := g.acceptWG + 1) && pc' == StartSpawn(pc.left)
    else
      false
  }

  /** acceptLoop, proxy.go:210-243.  A closed listener accepts nothing. */
  ghost predicate AcceptStep(g: Shared, pc: Pc, g': Shared, pc': Pc) {
    if pc.Accepting? then
      && g' == g
      && (|| (!g.listenersClosed && pc' == AcceptedOne)
          || ((g.ctxDone || g.listenersClosed) && pc' == AcceptReturn)
          || (!g.listenersClosed && !g.ctxDone && pc' == Backoff))
    else if pc.Backoff? then
      g' == g && (pc' == Accepting || (g.ctxDone && pc' == AcceptReturn))
    else if pc.AcceptedOne? then
      g' == g.(activeConn := g.activeConn + 1) && pc' == AcceptSpawn
    else if pc.AcceptReturn? then
      g.acceptWG > 0 && g' == g.(acceptWG := g.acceptWG - 1) && pc' == Gone
    else
      false
  }

  /** serveConn up to the handler and the deferred Done, proxy.go:158-166 and 238-241. */
  ghost predicate ServeStep(g: Shared, pc: Pc, g': Shared, pc': Pc) {
    if pc.Queueing? then
      || (g.limiter < g.maxConns && g' == g.(limiter := g.limiter + 1) && pc' == Handling(false, 0))
      || (g.limiter >= g.maxConns && g' == g && pc' == Rejecting)  // the queue timeout finds it full
    else if pc.Rejecting? then
      g' == g && pc' == Returning(false, 0)
    else if pc.Returning? then
      g.activeConn > 0 && g' == g.(activeConn := g.activeConn - 1) && pc' == Gone
    else
      false
  }

  /** The handler, which may call established any number of times, and the deferred call,
      proxy.go:167-171. */
  ghost predicate HandleStep(g: Shared, pc: Pc, g': Shared, pc': Pc) {
    && pc.Handling?
    && if pc.once then
         g' == g && (pc' == pc || pc' == Returning(true, pc.releases))
       else
         && g.limiter > 0 && g' == g.(limiter := g.limiter - 1)
         && (pc' == Handling(true, pc.releases + 1) || pc' == Returning(true, pc.releases + 1))
  }

  /** Shutdown, proxy.go:120-148, and cleanupStartFailure, proxy.go:109-117. */
  ghost predicate StopStep(g: Shared, pc: Pc, g': Shared, pc': Pc) {
    if pc.Idle? then
      !g.starting && g' == g && pc'.StopOnce?
    else if pc.StopOnce? then
      && g' == (if g.stopped then g else g.(stopped := true, stopCloses := g.stopCloses + 1))
      && pc' == CloseListeners(pc.graceful)
    else if pc.CloseListeners? then
      g' == g.(listenersClosed := true) && pc' == WaitAccept(pc.graceful)
    else if pc.WaitAccept? then
      g.acceptWG == 0 && g' == g && pc' == if pc.graceful then SpawnWaiter else ClosePool
    else if pc.Grace? then
      g' == g && pc' == ClosePool  // the connections are done or the grace period is over
    else if pc.ClosePool? then
      && g' == (if g.poolClosed then g else g.(poolClosed := true, poolCloses := g.poolCloses + 1))
      && pc' == Idle
    else if pc.WaitBegin? then
      g' == g.(waiting := true) && pc' == WaitActive
    else if pc.WaitActive? then
      g.activeConn == 0 && g' == g && pc' == Gone
    else
      false
  }

  datatype Routine = Start | AcceptLoop | ServeConn | Handle | Stop

  ghost predicate StepIn(r: Routine, g: Shared, pc: Pc, g': Shared, pc': Pc) {
    match r
    case Start => StartStep(g, pc, g', pc')
    case AcceptLoop => AcceptStep(g, pc, g', pc')
    case ServeConn => ServeStep(g, pc, g', pc')
    case Handle => HandleStep(g, pc, g', pc')
    case Stop => StopStep(g, pc, g', pc')
  }

  ghost predicate LocalStep(g: Shared, pc: Pc, g': Shared, pc': Pc) {
    exists r :: StepIn(r, g, pc, g', pc')
  }

  ghost predicate Step(s: State, p: Pid, s': State) {
    && s'.procs == s.procs[p := s'.Pc(p)]
    && LocalStep(s.g, s.Pc(p), s'.g, s'.Pc(p))
  }

  /** The three go statements: where the parent goes on and where the child begins. */
  function AfterGo(pc: Pc): Option<(Pc, Pc)> {
    if pc.StartSpawn? then Some((Starting(if pc.left > 0 then pc.left - 1 else 0), Accepting))
    else if pc.AcceptSpawn? then Some((Accepting, Queueing))
    else if pc.SpawnWaiter? then Some((Grace, WaitBegin))
    else None
  }

  ghost predicate Go(s: State, p: Pid, q: Pid, s': State) {
    && AfterGo(s.Pc(p)).Some?
    && q != p && q !in s.procs
    && s'.g == s.g
    && s'.procs == s.procs[p := AfterGo(s.Pc(p)).value.0][q := AfterGo(s.Pc(p)).value.1]
  }

  /** main cancels the context before it calls Shutdown (main.go). */
  ghost predicate Cancel(s: State, s': State) {
    s' == s.(g := s.g.(ctxDone := true))
  }

  ghost predicate Next(s: State, s': State) {
    || Cancel(s, s')
    || (exists p :: Step(s, p, s'))
    || (exists p, q :: Go(s, p, q, s'))
  }

  /** About to start with some number of listeners. */
  ghost predicate Init(s: State) {
    && s.g == Shared(s.g.maxConns, 0, 0, 0, true, false, false, false, false, false, 0, 0)
    && s.g.maxConns >= 1
    && s.Pc(STARTER).Starting?
    && s.procs == map[STARTER := s.Pc(STARTER)]
  }

  ghost predicate NextAt(run: seq<State>, i: int)
    requires 0 <= i < |run| - 1
  {
    Next(run[i], run[i + 1])
  }

  ghost predicate IsRun(run: seq<State>) {
    && run != []
    && Init(run[0])
    && forall i :: 0 <= i < |run| - 1 ==> NextAt(run, i)
  }
}
