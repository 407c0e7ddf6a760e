/** Start, acceptLoop, serveConn and Shutdown as code (proxy.go:35-243).  Each operation on a
    wait group, the limiter, the listeners or a sync.Once is one step of the execution in the
    ghost field `trace`; in between, other goroutines move on. */
module ServerGoroutines {
  import opened Common
  import opened Server
  import opened ServerTheorems

  /** What listener.Accept came back with. */
  datatype Accepted = Conn | Closed | Failed

  /** The positions in `at` are, one after the other and after `start`, where p's Accept came
      back, with a connection or without. */
  ghost predicate AcceptsAt(run: seq<State>, start: nat, p: Pid, arrivals: seq<bool>, at: seq<nat>) {
    && |at| <= |arrivals|
    && (forall i :: 0 <= i < |at| ==> start <= at[i] < |run| && AcceptedAt(run, at[i], p, arrivals[i]))
    && (forall i, j :: 0 <= i < j < |at| ==> at[i] < at[j])
  }

  /** A connection that arrives is taken unless the listeners are closed; an Accept without one ends
      the loop exactly when they are, or the context has ended. */
  ghost predicate AcceptedAt(run: seq<State>, i: nat, p: Pid, arrived: bool)
    requires i < |run|
  {
    && i > 0 && run[i - 1].Pc(p) == Accepting
    && run[i].Pc(p) == if arrived && !run[i - 1].g.listenersClosed then AcceptedOne
                       else if run[i - 1].g.ctxDone || run[i - 1].g.listenersClosed then AcceptReturn
                       else Backoff
  }

  /** p waits for the accept loops, with stopCh and the listeners closed. */
  ghost predicate WaitsAt(run: seq<State>, i: nat, p: Pid, graceful: bool)
    requires i < |run|
  {
    run[i].Pc(p) == WaitAccept(graceful) && run[i].g.stopped && run[i].g.listenersClosed
  }

  lemma AcceptsStay(run: seq<State>, longer: seq<State>, start: nat, p: Pid, arrivals: seq<bool>, at: seq<nat>,
                    next: nat)
    requires run <= longer && |at| < |arrivals| && AcceptsAt(run, start, p, arrivals, at)
    requires |run| <= next < |longer| && start <= next && AcceptedAt(longer, next, p, arrivals[|at|])
    ensures AcceptsAt(longer, start, p, arrivals, at + [next])
  {
    forall i | 0 <= i < |at| ensures AcceptedAt(longer, at[i], p, arrivals[i]) {
      assert AcceptedAt(run, at[i], p, arrivals[i]);
    }
  }

  /** The state at position i was reached by p going on from its wait for the connections, of which
      none was left. */
  ghost predicate NoneLeftAt(run: seq<State>, i: nat, p: Pid)
    requires i < |run|
  {
    i > 0 && run[i - 1].Pc(p) == Grace && run[i].Pc(p) == ClosePool && run[i].g.activeConn == 0
  }

  class ProxyServer {
    const maxConns: nat
    var limiter: nat          // tokens in the channel
    var acceptWG: nat
    var activeConn: nat
    var listenersClosed: bool
    var ctxDone: bool
    var stopped: bool         // stopOnce has run
    var poolClosed: bool
    ghost var starting: bool
    ghost var waiting: bool
    ghost var stopCloses: nat
    ghost var poolCloses: nat
    ghost var procs: map<Pid, Pc>
    ghost var trace: seq<State>

    ghost function Now(): State
      reads this
    {
      State(Shared(maxConns, limiter, acceptWG, activeConn, starting, listenersClosed, ctxDone, stopped, poolClosed,
                   waiting, stopCloses, poolCloses), procs)
    }

    ghost function Pc(p: Pid): Pc
      reads this
    {
      Now().Pc(p)
    }

    ghost predicate Valid()
      reads this
    {
      IsRun(trace) && trace[|trace| - 1] == Now()
    }

    constructor (maxConns: nat, ports: nat)
      requires maxConns >= 1
      ensures Valid() && trace == [Now()] && this.maxConns == maxConns && Pc(STARTER) == Starting(ports)
    {
      this.maxConns := maxConns;
      limiter, acceptWG, activeConn, stopCloses, poolCloses := 0, 0, 0, 0, 0;
      listenersClosed, ctxDone, stopped, poolClosed, starting, waiting := false, false, false, false, true, false;
      procs := map[STARTER := Starting(ports)];
      new;
      trace := [Now()];
    }

    ghost method Record()
      requires IsRun(trace) && Next(trace[|trace| - 1], Now())
      modifies this`trace
      ensures Valid() && trace == old(trace) + [Now()]
    {
      trace := trace + [Now()];
      forall i | 0 <= i < |trace| - 1 ensures NextAt(trace, i) {
        if i < |old(trace)| - 1 {
          assert NextAt(old(trace), i);
        }
      }
    }

    /** Goroutine `me` has done what leads to `pc`. */
    ghost method Arrive(me: Pid, pc: Pc)
      requires IsRun(trace) && trace[|trace| - 1].procs == procs
      requires LocalStep(trace[|trace| - 1].g, Pc(me), Now().g, pc)
      modifies this`procs, this`trace
      ensures Valid() && trace == old(trace) + [Now()] && procs == old(procs)[me := pc]
    {
      var before := trace[|trace| - 1];
      procs := procs[me := pc];
      assert Step(before, me, Now());
      Record();
    }

    /** A go statement: `me` goes on and a new goroutine begins. */
    ghost method Spawn(me: Pid) returns (child: Pid)
      requires Valid() && AfterGo(Pc(me)).Some?
      modifies this`procs, this`trace
      ensures Valid() && trace == old(trace) + [Now()] && child !in old(procs)
      ensures Pc(me) == old(AfterGo(Pc(me)).value.0) && Pc(child) == old(AfterGo(Pc(me)).value.1)
    {
      var before := Now();
      assert me in procs;
      child := FreshPid(procs);
      procs := procs[me := AfterGo(Pc(me)).value.0][child := AfterGo(Pc(me)).value.1];
      assert Go(before, me, child, Now());
      Record();
    }

    /** Any number of steps by everybody else. */
    method Interfere(ghost me: Pid)
      requires Valid()
      modifies this
      ensures Valid() && old(trace) <= trace && Pc(me) == old(Pc(me))
    {
    }

    /** What was done earlier in the execution stays done. */
    twostate lemma GoesOn()
      requires old(Valid()) && Valid() && old(trace) <= trace
      ensures Onward(old(Now().g), Now().g)
    {
      RunsGoOn(trace, |old(trace)| - 1, |trace| - 1);
    }

    lemma NowKeepsInv(me: Pid)
      requires Valid()
      ensures Inv(Now()) && PcOk(Now().g, Pc(me))
      ensures HasToken(Pc(me)) ==> limiter > 0
      ensures InAccept(Pc(me)) ==> acceptWG > 0
      ensures InFlight(Pc(me)) ==> activeConn > 0
    {
      var s := Now();
      assert Reachable(s);
      ReachableInv(s);
      LimiterConserves(s);
      WaitGroupsCount(s);
      if InAccept(Pc(me)) {
        CountAtLeast(procs, {me}, InAccept);
      }
    }

    // ---- Start ----

    /** Opens a listener for each port in turn, `opens` saying whether it can; at the first that
        cannot be opened it cleans up, which is watched for `turns` turns and may not be over by
        then. */
    method Start(opens: seq<bool>, turns: nat) returns (ok: bool, over: bool)
      requires Valid() && Pc(STARTER) == Starting(|opens|)
      modifies this
      ensures Valid() && old(trace) <= trace
      ensures ok <==> false !in opens
      ensures Pc(STARTER) == if ok || over then Idle else WaitAccept(false)
      ensures !ok ==> stopped && listenersClosed
      ensures !ok ==> if over then poolClosed else acceptWG > 0
    {
      ok := OpenAll(opens);
      over := ok;
      if !ok {
        ghost var at, none;
        over, at, none := Stop(STARTER, false, turns, false);
      }
    }

    method OpenAll(opens: seq<bool>) returns (ok: bool)
      requires Valid() && Pc(STARTER) == Starting(|opens|)
      modifies this
      ensures Valid() && old(trace) <= trace
      ensures ok <==> false !in opens
      ensures Pc(STARTER) == if ok then Idle else StopOnce(false)
    {
      var left: nat := |opens|;
      ok := true;
      while left > 0 && ok
        invariant Valid() && old(trace) <= trace && left <= |opens|
        invariant ok <==> false !in opens[..|opens| - left]
        invariant !ok ==> false in opens
        invariant Pc(STARTER) == if ok then Starting(left) else StopOnce(false)
      {
        var n := |opens| - left;
        assert opens[..n + 1] == opens[..n] + [opens[n]];
        ok := OpenListener(left, opens[n]);
        left := left - 1;
      }
      assert ok ==> opens[..|opens| - left] == opens;
      if ok {
        FinishStart();
      }
    }

    method OpenListener(left: nat, opens: bool) returns (ok: bool)
      requires Valid() && left > 0 && Pc(STARTER) == Starting(left)
      modifies this
      ensures Valid() && old(trace) <= trace && ok == opens
      ensures Pc(STARTER) == if ok then Starting(left - 1) else StopOnce(false)
    {
      Interfere(STARTER);
      ok := Listen(left, opens);
      if ok {
        Interfere(STARTER);
        StartLoop(left);
      }
    }

    /** net.Listen. */
    method Listen(left: nat, opens: bool) returns (ok: bool)
      requires Valid() && left > 0 && Pc(STARTER) == Starting(left)
      modifies this`starting, this`procs, this`trace
      ensures Valid() && trace == old(trace) + [Now()] && ok == opens
      ensures Pc(STARTER) == if ok then StartAdd(left) else StopOnce(false)
    {
      ok := opens;
      if ok {
        assert StepIn(Routine.Start, Now().g, Pc(STARTER), Now().g, StartAdd(left));
        Arrive(STARTER, StartAdd(left));
      } else {
        starting := false;
        assert StepIn(Routine.Start, trace[|trace| - 1].g, Pc(STARTER), Now().g, StopOnce(false));
        Arrive(STARTER, StopOnce(false));
      }
    }

    method StartLoop(left: nat)
      requires Valid() && left > 0 && Pc(STARTER) == StartAdd(left)
      modifies this
      ensures Valid() && old(trace) <= trace && Pc(STARTER) == Starting(left - 1)
    {
      CountLoop(left);
      Interfere(STARTER);
      ghost var loop := Spawn(STARTER);
    }

    method CountLoop(left: nat)
      requires Valid() && left > 0 && Pc(STARTER) == StartAdd(left)
      modifies this`acceptWG, this`procs, this`trace
      ensures Valid() && trace == old(trace) + [Now()] && Pc(STARTER) == StartSpawn(left)
      ensures acceptWG == old(acceptWG) + 1
    {
      acceptWG := acceptWG + 1;
      assert StepIn(Routine.Start, trace[|trace| - 1].g, Pc(STARTER), Now().g, StartSpawn(left));
      Arrive(STARTER, StartSpawn(left));
    }

    method FinishStart()
      requires Valid() && Pc(STARTER) == Starting(0)
      modifies this`starting, this`procs, this`trace
      ensures Valid() && old(trace) <= trace && Pc(STARTER) == Idle
    {
      starting := false;
      assert StepIn(Routine.Start, trace[|trace| - 1].g, Pc(STARTER), Now().g, Idle);
      Arrive(STARTER, Idle);
    }

    // ---- acceptLoop ----

    /** The loop, watched for as many turns as `arrivals` says whether Accept brings a connection or
        an error, unless it is over before: `at` is where in the execution each turn's Accept came
        back.  Over means the listeners are closed or the context has ended. */
    method AcceptLoop(me: Pid, arrivals: seq<bool>) returns (over: bool, ghost at: seq<nat>)
      requires Valid() && Pc(me).Accepting?
      modifies this
      ensures Valid() && old(trace) <= trace
      ensures Pc(me) == if over then AcceptReturn else Accepting
      ensures over ==> listenersClosed || ctxDone
      ensures AcceptsAt(trace, |old(trace)|, me, arrivals, at)
      ensures !over ==> |at| == |arrivals|
    {
      over, at := false, [];
      var i := 0;
      while i < |arrivals| && !over
        invariant Valid() && old(trace) <= trace && i <= |arrivals| && |at| == i
        invariant Pc(me) == if over then AcceptReturn else Accepting
        invariant over ==> listenersClosed || ctxDone
        invariant AcceptsAt(trace, |old(trace)|, me, arrivals, at)
      {
        ghost var sofar := trace;
        ghost var next;
        over, next := AcceptTurn(me, arrivals[i]);
        AcceptsStay(sofar, trace, |old(trace)|, me, arrivals, at, next);
        at := at + [next];
        i := i + 1;
      }
    }

    method AcceptTurn(me: Pid, arrived: bool) returns (over: bool, ghost at: nat)
      requires Valid() && Pc(me).Accepting?
      modifies this
      ensures Valid() && old(trace) <= trace
      ensures Pc(me) == if over then AcceptReturn else Accepting
      ensures over ==> listenersClosed || ctxDone
      ensures |old(trace)| <= at < |trace| && AcceptedAt(trace, at, me, arrived)
    {
      var accepted;
      accepted, at := AcceptAfterWhile(me, arrived);
      over := AfterAccept(me, accepted);
    }

    method AcceptAfterWhile(me: Pid, arrived: bool) returns (accepted: Accepted, ghost at: nat)
      requires Valid() && Pc(me).Accepting?
      modifies this
      ensures Valid() && old(trace) <= trace
      ensures |old(trace)| <= at < |trace| && AcceptedAt(trace, at, me, arrived)
      ensures match accepted
              case Conn => Pc(me) == AcceptedOne
              case Closed => (listenersClosed || ctxDone) && Pc(me) == AcceptReturn
              case Failed => Pc(me) == Backoff
    {
      Interfere(me);
      at := |trace|;
      accepted := Accept(me, arrived);
    }

    method AfterAccept(me: Pid, accepted: Accepted) returns (over: bool)
      requires Valid()
      requires match accepted
               case Conn => Pc(me) == AcceptedOne
               case Closed => (listenersClosed || ctxDone) && Pc(me) == AcceptReturn
               case Failed => Pc(me) == Backoff
      modifies this
      ensures Valid() && old(trace) <= trace
      ensures Pc(me) == if over then AcceptReturn else Accepting
      ensures over ==> listenersClosed || ctxDone
    {
      match accepted {
        case Conn => over := false; HandOver(me);
        case Closed => over := true;
        case Failed => over := WaitOut(me);
      }
    }

    /** listener.Accept and what the loop makes of its error; a listener that fails for a while
        does so at most this once. */
    method Accept(me: Pid, arrived: bool) returns (accepted: Accepted)
      requires Valid() && Pc(me).Accepting?
      modifies this`procs, this`trace
      ensures Valid() && trace == old(trace) + [Now()]
      ensures match accepted
              case Conn => arrived && !old(listenersClosed) && Pc(me) == AcceptedOne
              case Closed => old(listenersClosed || ctxDone) && Pc(me) == AcceptReturn
              case Failed => !old(listenersClosed || ctxDone) && Pc(me) == Backoff
      ensures arrived && !old(listenersClosed) ==> accepted.Conn?
    {
      if arrived && !listenersClosed {
        accepted := Conn;
        assert StepIn(Routine.AcceptLoop, Now().g, Pc(me), Now().g, AcceptedOne);
        Arrive(me, AcceptedOne);
      } else if ctxDone || listenersClosed {
        accepted := Closed;
        assert StepIn(Routine.AcceptLoop, Now().g, Pc(me), Now().g, AcceptReturn);
        Arrive(me, AcceptReturn);
      } else {
        accepted := Failed;
        assert StepIn(Routine.AcceptLoop, Now().g, Pc(me), Now().g, Backoff);
        Arrive(me, Backoff);
      }
    }

    /** Counts the connection before its handler starts. */
    method HandOver(me: Pid)
      requires Valid() && Pc(me) == AcceptedOne
      modifies this
      ensures Valid() && old(trace) <= trace && Pc(me) == Accepting
    {
      Interfere(me);
      CountConnection(me);
      ghost var handler := Spawn(me);
    }

    method CountConnection(me: Pid)
      requires Valid() && Pc(me) == AcceptedOne
      modifies this`activeConn, this`procs, this`trace
      ensures Valid() && trace == old(trace) + [Now()] && Pc(me) == AcceptSpawn && activeConn == old(activeConn) + 1
    {
      activeConn := activeConn + 1;
      assert StepIn(Routine.AcceptLoop, trace[|trace| - 1].g, Pc(me), Now().g, AcceptSpawn);
      Arrive(me, AcceptSpawn);
    }

    method WaitOut(me: Pid) returns (over: bool)
      requires Valid() && Pc(me) == Backoff
      modifies this
      ensures Valid() && old(trace) <= trace
      ensures Pc(me) == if over then AcceptReturn else Accepting
      ensures over ==> ctxDone
    {
      Interfere(me);
      var timer: bool := *;
      over := ctxDone && !timer;
      assert StepIn(Routine.AcceptLoop, Now().g, Pc(me), Now().g, if over then AcceptReturn else Accepting);
      Arrive(me, if over then AcceptReturn else Accepting);
    }

    /** The deferred acceptWG.Done, which never takes the counter below zero. */
    method LeaveLoop(me: Pid)
      requires Valid() && Pc(me) == AcceptReturn
      modifies this`acceptWG, this`procs, this`trace
      ensures Valid() && trace == old(trace) + [Now()] && Pc(me) == Gone && acceptWG == old(acceptWG) - 1
    {
      NowKeepsInv(me);
      acceptWG := acceptWG - 1;
      assert StepIn(Routine.AcceptLoop, trace[|trace| - 1].g, Pc(me), Now().g, Gone);
      Arrive(me, Gone);
    }

    // ---- serveConn ----

    /** The handler calls established `calls` times; the deferred call comes on top. */
    method ServeConn(me: Pid, calls: nat) returns (admitted: bool)
      requires Valid() && Pc(me).Queueing?
      modifies this
      ensures Valid() && old(trace) <= trace
      ensures Pc(me) == Returning(admitted, if admitted then 1 else 0)
    {
      Interfere(me);
      admitted := Enter(me);
      if admitted {
        Handle(me, calls);
      } else {
        Reject(me);
      }
    }

    /** Select between a place in the limiter and the queue timeout, which only finds out what waits
        for a place. */
    method Enter(me: Pid) returns (admitted: bool)
      requires Valid() && Pc(me).Queueing?
      modifies this`limiter, this`procs, this`trace
      ensures Valid() && trace == old(trace) + [Now()]
      ensures admitted <==> old(limiter) < maxConns
      ensures admitted ==> limiter == old(limiter) + 1 && Pc(me) == Handling(false, 0)
      ensures !admitted ==> limiter == old(limiter) && Pc(me) == Rejecting
    {
      admitted := limiter < maxConns;
      if admitted {
        limiter := limiter + 1;
        assert StepIn(Routine.ServeConn, trace[|trace| - 1].g, Pc(me), Now().g, Handling(false, 0));
        Arrive(me, Handling(false, 0));
      } else {
        assert StepIn(Routine.ServeConn, Now().g, Pc(me), Now().g, Rejecting);
        Arrive(me, Rejecting);
      }
    }

    method Reject(me: Pid)
      requires Valid() && Pc(me) == Rejecting
      modifies this`procs, this`trace
      ensures Valid() && trace == old(trace) + [Now()] && Pc(me) == Returning(false, 0) && limiter == old(limiter)
    {
      assert StepIn(Routine.ServeConn, Now().g, Pc(me), Now().g, Returning(false, 0));
      Arrive(me, Returning(false, 0));
    }

    method Handle(me: Pid, calls: nat)
      requires Valid() && Pc(me) == Handling(false, 0)
      modifies this
      ensures Valid() && old(trace) <= trace && Pc(me) == Returning(true, 1)
    {
      var once := false;
      var i := 0;
      while i < calls
        invariant Valid() && old(trace) <= trace
        invariant Pc(me) == Handling(once, if once then 1 else 0)
      {
        Interfere(me);
        Established(me, once, false);
        once := true;
        i := i + 1;
      }
      Interfere(me);
      Established(me, once, true);
    }

    /** once.Do around the receive from the limiter; the deferred call is the last. */
    method Established(me: Pid, once: bool, last: bool)
      requires Valid() && Pc(me) == Handling(once, if once then 1 else 0)
      modifies this`limiter, this`procs, this`trace
      ensures Valid() && trace == old(trace) + [Now()]
      ensures Pc(me) == if last then Returning(true, 1) else Handling(true, 1)
      ensures limiter == old(limiter) - if once then 0 else 1
    {
      NowKeepsInv(me);
      if !once {
        limiter := limiter - 1;
      }
      ghost var pc := if last then Returning(true, 1) else Handling(true, 1);
      assert StepIn(Routine.Handle, trace[|trace| - 1].g, Pc(me), Now().g, pc);
      Arrive(me, pc);
    }

    /** The deferred activeConn.Done. */
    method Done(me: Pid)
      requires Valid() && Pc(me).Returning?
      modifies this`activeConn, this`procs, this`trace
      ensures Valid() && trace == old(trace) + [Now()] && Pc(me) == Gone && activeConn == old(activeConn) - 1
    {
      NowKeepsInv(me);
      activeConn := activeConn - 1;
      assert StepIn(Routine.ServeConn, trace[|trace| - 1].g, Pc(me), Now().g, Gone);
      Arrive(me, Gone);
    }

    // ---- Shutdown and cleanupStartFailure ----

    /** It has closed stopCh and the listeners and waited at `at` for the accept loops; it is over
        when the pool is closed too, and else some accept loop or connection is still alive.  If the
        grace period does not expire, `none` is where no connection was left. */
    method Shutdown(me: Pid, turns: nat, expires: bool) returns (over: bool, ghost at: nat, ghost none: nat)
      requires Valid() && Pc(me) == Idle && !starting
      modifies this
      ensures Valid() && old(trace) <= trace
      ensures if over then Pc(me) == Idle && poolClosed
              else (Pc(me) == WaitAccept(true) && acceptWG > 0) || (Pc(me) == Grace && activeConn > 0 && !expires)
      ensures stopped && listenersClosed
      ensures |old(trace)| <= at < |trace| && WaitsAt(trace, at, me, true)
      ensures over && !expires ==> at < none < |trace| && NoneLeftAt(trace, none, me)
    {
      BeginShutdown(me);
      over, at, none := Stop(me, true, turns, expires);
    }

    method BeginShutdown(me: Pid)
      requires Valid() && Pc(me) == Idle && !starting
      modifies this`procs, this`trace
      ensures Valid() && trace == old(trace) + [Now()] && Pc(me) == StopOnce(true)
    {
      assert StepIn(Routine.Stop, Now().g, Pc(me), Now().g, StopOnce(true));
      Arrive(me, StopOnce(true));
    }

    /** Both close stopCh and the listeners and wait for the accept loops, watched here for
        `turns` turns; Shutdown then also waits for the connections, watched as long, unless its grace
        period expires. */
    method Stop(me: Pid, graceful: bool, turns: nat, expires: bool)
      returns (over: bool, ghost at: nat, ghost none: nat)
      requires Valid() && Pc(me) == StopOnce(graceful)
      modifies this
      ensures Valid() && old(trace) <= trace
      ensures if over then Pc(me) == Idle && poolClosed
              else || (Pc(me) == WaitAccept(graceful) && acceptWG > 0)
                   || (graceful && Pc(me) == Grace && activeConn > 0 && !expires)
      ensures stopped && listenersClosed
      ensures |old(trace)| <= at < |trace| && WaitsAt(trace, at, me, graceful)
      ensures over && graceful && !expires ==> at < none < |trace| && NoneLeftAt(trace, none, me)
    {
      at := StopAccepting(me, graceful);
      label closed:
      none := at;
      over := WaitForLoops(me, graceful, turns);
      if over {
        over, none := Release(me, graceful, turns, expires);
      }
      GoesOn@closed();
    }

    method StopAccepting(me: Pid, graceful: bool) returns (ghost at: nat)
      requires Valid() && Pc(me) == StopOnce(graceful)
      modifies this
      ensures Valid() && old(trace) <= trace && Pc(me) == WaitAccept(graceful)
      ensures stopped && listenersClosed
      ensures |old(trace)| <= at < |trace| && WaitsAt(trace, at, me, graceful)
    {
      Interfere(me);
      CloseStopCh(me, graceful);
      label signalled:
      Interfere(me);
      GoesOn@signalled();
      at := |trace|;
      StopListening(me, graceful);
    }

    method CloseStopCh(me: Pid, graceful: bool)
      requires Valid() && Pc(me) == StopOnce(graceful)
      modifies this`stopped, this`stopCloses, this`procs, this`trace
      ensures Valid() && trace == old(trace) + [Now()] && stopped && Pc(me) == CloseListeners(graceful)
      ensures stopCloses == old(stopCloses) + if old(stopped) then 0 else 1
    {
      if !stopped {
        stopped, stopCloses := true, stopCloses + 1;
      }
      assert StepIn(Routine.Stop, trace[|trace| - 1].g, Pc(me), Now().g, CloseListeners(graceful));
      Arrive(me, CloseListeners(graceful));
    }

    method StopListening(me: Pid, graceful: bool)
      requires Valid() && Pc(me) == CloseListeners(graceful)
      modifies this`listenersClosed, this`procs, this`trace
      ensures Valid() && trace == old(trace) + [Now()] && listenersClosed && Pc(me) == WaitAccept(graceful)
    {
      listenersClosed := true;
      assert StepIn(Routine.Stop, trace[|trace| - 1].g, Pc(me), Now().g, WaitAccept(graceful));
      Arrive(me, WaitAccept(graceful));
    }

    method WaitForLoops(me: Pid, graceful: bool, turns: nat) returns (over: bool)
      requires Valid() && Pc(me) == WaitAccept(graceful)
      modifies this
      ensures Valid() && old(trace) <= trace
      ensures Pc(me) == if !over then WaitAccept(graceful) else if graceful then SpawnWaiter else ClosePool
      ensures !over ==> acceptWG > 0
    {
      var i := 0;
      while i < turns && acceptWG > 0
        invariant Valid() && old(trace) <= trace && Pc(me) == WaitAccept(graceful)
      {
        Interfere(me);
        i := i + 1;
      }
      over := acceptWG == 0;
      if over {
        ghost var pc := if graceful then SpawnWaiter else ClosePool;
        assert StepIn(Routine.Stop, Now().g, Pc(me), Now().g, pc);
        Arrive(me, pc);
      }
    }

    method Release(me: Pid, graceful: bool, turns: nat, expires: bool) returns (over: bool, ghost none: nat)
      requires Valid() && Pc(me) == if graceful then SpawnWaiter else ClosePool
      modifies this
      ensures Valid() && old(trace) <= trace
      ensures if over then Pc(me) == Idle && poolClosed else graceful && Pc(me) == Grace && activeConn > 0 && !expires
      ensures over && graceful && !expires ==> |old(trace)| <= none < |trace| && NoneLeftAt(trace, none, me)
    {
      over, none := true, 0;
      if graceful {
        over, none := WaitForConnections(me, turns, expires);
      }
      if over {
        Interfere(me);
        ReleasePool(me);
      }
    }

    /** Another goroutine waits for the connections; this one until there are none, or until the
        grace period expires. */
    method WaitForConnections(me: Pid, turns: nat, expires: bool) returns (over: bool, ghost none: nat)
      requires Valid() && Pc(me) == SpawnWaiter
      modifies this
      ensures Valid() && old(trace) <= trace
      ensures if over then Pc(me) == ClosePool else Pc(me) == Grace && activeConn > 0 && !expires
      ensures over && !expires ==> |old(trace)| <= none < |trace| && NoneLeftAt(trace, none, me)
    {
      ghost var waiter := Spawn(me);
      var i := 0;
      while i < turns && activeConn > 0
        invariant Valid() && old(trace) <= trace && |old(trace)| < |trace| && Pc(me) == Grace
      {
        Interfere(me);
        i := i + 1;
      }
      over, none := activeConn == 0 || expires, |trace|;
      if over {
        assert StepIn(Routine.Stop, Now().g, Pc(me), Now().g, ClosePool);
        Arrive(me, ClosePool);
      }
    }

    /** closeAll closes nothing twice. */
    method ReleasePool(me: Pid)
      requires Valid() && Pc(me) == ClosePool
      modifies this`poolClosed, this`poolCloses, this`procs, this`trace
      ensures Valid() && trace == old(trace) + [Now()] && poolClosed && Pc(me) == Idle
      ensures poolCloses == old(poolCloses) + if old(poolClosed) then 0 else 1
    {
      if !poolClosed {
        poolClosed, poolCloses := true, poolCloses + 1;
      }
      assert StepIn(Routine.Stop, trace[|trace| - 1].g, Pc(me), Now().g, Idle);
      Arrive(me, Idle);
    }

    // ---- the goroutine that waits for the connections ----

    /** activeConn.Wait, watched for `turns` turns.  No Add comes once it has begun. */
    method AwaitConnections(me: Pid, turns: nat) returns (over: bool)
      requires Valid() && Pc(me) == WaitBegin
      modifies this
      ensures Valid() && old(trace) < trace
      ensures Pc(me) == if over then Gone else WaitActive
      ensures !over ==> activeConn > 0
    {
      BeginWait(me);
      over := WaitOn(me, turns);
    }

    method BeginWait(me: Pid)
      requires Valid() && Pc(me) == WaitBegin
      modifies this`waiting, this`procs, this`trace
      ensures Valid() && trace == old(trace) + [Now()] && Pc(me) == WaitActive && waiting
    {
      waiting := true;
      assert StepIn(Routine.Stop, trace[|trace| - 1].g, Pc(me), Now().g, WaitActive);
      Arrive(me, WaitActive);
    }

    method WaitOn(me: Pid, turns: nat) returns (over: bool)
      requires Valid() && Pc(me) == WaitActive
      modifies this
      ensures Valid() && old(trace) <= trace
      ensures Pc(me) == if over then Gone else WaitActive
      ensures !over ==> activeConn > 0
    {
      var i := 0;
      while i < turns && activeConn > 0
        invariant Valid() && old(trace) <= trace && Pc(me) == WaitActive
      {
        Interfere(me);
        i := i + 1;
      }
      over := activeConn == 0;
      if over {
        assert StepIn(Routine.Stop, Now().g, Pc(me), Now().g, Gone);
        Arrive(me, Gone);
      }
    }
  }
}
