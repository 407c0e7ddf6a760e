/** pool.go as code.  The methods follow the Go functions statement by statement.  Every
    access to shared state is a method of its own, shown to be exactly one step of the
    execution that the ghost field `trace` records; between two accesses every other
    goroutine may take any number of steps.  So everything proved about the pool's runs
    holds of this code. */
module PoolGoroutines {
  import opened Common
  import opened Pool
  import opened PoolOwnership
  import opened PoolClosing
  import opened PoolLimits
  import opened PoolTheorems

  /** What a caller meets outside the pool: when its context ends, whether a client that is not
      closed answers a keepalive, and whether dial and handshake succeed. */
  datatype Outside = Outside(deadline: Time, answers: bool, connects: bool)

  /** The state at position `at` was reached by p giving up a dial: the pool was closed, its
      context ended in the queue, or the dial or the handshake failed, if only for the context. */
  ghost predicate GivesUp(run: seq<State>, at: nat, p: Pid, out: Outside)
    requires at < |run|
  {
    && at > 0
    && run[at].Pc(p) == Idle
    && (|| (run[at - 1].Pc(p) == DialCheck && run[at - 1].g.closed)
        || (run[at - 1].Pc(p) == DialSlot && run[at - 1].g.now >= out.deadline)
        || (run[at - 1].Pc(p) == DialFailed && (!out.connects || run[at - 1].g.now >= out.deadline)))
  }

  /** What a receive from the channel brings. */
  function Head(g: Shared): Client {
    if g.connections == [] then NIL else g.connections[0]
  }

  /** From position `at` p takes the head of the channel, or goes on to dial without one. */
  ghost predicate TakesHead(run: seq<State>, at: nat, p: Pid)
    requires at + 1 < |run|
  {
    && run[at].Pc(p) == GetTake
    && run[at + 1].Pc(p) == (if Head(run[at].g) == NIL then DialCheck else GetInspect(Head(run[at].g)))
    && run[at + 1].g.connections == if run[at].g.connections == [] then [] else run[at].g.connections[1..]
  }

  /** At position `at` p finds that c, which it took, does not answer, and is about to replace it. */
  ghost predicate Replaces(run: seq<State>, at: nat, p: Pid, c: Client, out: Outside)
    requires at < |run|
  {
    && at > 0 && run[at - 1].Pc(p) == GetProbe(c) && run[at].Pc(p) == Untrack(c, Redial)
    && (!out.answers || c in run[at - 1].g.shut)
  }

  /** Where in the execution a Get looked at the channel, replaced what it found there, and gave
      up. */
  datatype Trail = Trail(taken: nat, replaced: nat, failed: nat)

  /** What Get comes back with: the head of the channel, unless that does not answer; else a client
      made since, unless there is a reason to give up. */
  ghost predicate GetsRight(run: seq<State>, start: nat, p: Pid, out: Outside, next: Client, conn: Client, t: Trail) {
    && start <= t.taken && t.taken + 1 < |run| && TakesHead(run, t.taken, p)
    && var head := Head(run[t.taken].g);
       && (head != NIL && conn != head ==> t.taken < t.replaced < |run| && Replaces(run, t.replaced, p, head, out))
       && (conn != NIL ==> conn == head || conn >= next)
       && (conn == NIL ==> t.taken < t.failed < |run| && GivesUp(run, t.failed, p, out))
  }

  /** The outcome of a health probe: a timeout forgets the client, any other marks it. */
  ghost predicate Probed(run: seq<State>, at: nat, p: Pid, c: Client, late: bool, answers: bool)
    requires at < |run|
  {
    && at > 0 && run[at - 1].Pc(p) == HealthProbe(c)
    && run[at].Pc(p) == if late then HealthUntrack(c) else HealthMark(c, answers && c !in run[at - 1].g.shut)
  }

  /** p holds a client made since, which it is about to put back. */
  ghost predicate PutsBack(run: seq<State>, at: nat, p: Pid, next: Client)
    requires at < |run|
  {
    run[at].Pc(p).Using? && run[at].Pc(p).c >= next
  }

  lemma TakesHeadStays(run: seq<State>, longer: seq<State>, at: nat, p: Pid)
    requires run <= longer && at + 1 < |run| && TakesHead(run, at, p)
    ensures TakesHead(longer, at, p) && longer[at] == run[at]
  {
    assert longer[at] == run[at] && longer[at + 1] == run[at + 1];
  }

  lemma ReplacesStays(run: seq<State>, longer: seq<State>, at: nat, p: Pid, c: Client, out: Outside)
    requires run <= longer && at < |run| && Replaces(run, at, p, c, out)
    ensures Replaces(longer, at, p, c, out)
  {
    assert longer[at] == run[at] && longer[at - 1] == run[at - 1];
  }

  class SshConnectionPool {
    // the fields of the Go struct; the channel as the sequence of what it buffers
    var connections: seq<Client>
    const maxSize: nat
    var lastUsed: map<Client, Time>
    var healthStatus: map<Client, Health>
    var dialSem: nat
    var closed: bool
    var done: bool
    // the world: the clock, the clients created so far, and the ones closed
    var now: Time
    var next: Client
    var shut: set<Client>
    // history and the goroutine table
    ghost var timedOut: set<Client>
    ghost var killed: set<Client>
    ghost var lastOp: ChanOp
    ghost var probes: nat
    ghost var procs: map<Pid, Pc>
    ghost var trace: seq<State>

    ghost function Now(): State
      reads this
    {
      State(Shared(connections, maxSize, lastUsed, healthStatus, dialSem, closed, done,
                   now, next, shut, timedOut, killed, lastOp, probes), procs)
    }

    ghost function Pc(p: Pid): Pc
      reads this
    {
      Now().Pc(p)
    }

    ghost predicate Valid()
      reads this
    {
      IsRun(trace) && trace[|trace| - 1] == Now()
    }

    lemma NowIsReachable()
      requires Valid()
      ensures Reachable(Now())
    {
    }

    /** NewSSHConnectionPool, pool.go:55-76. */
    constructor (maxSize: nat, now: Time)
      requires maxSize >= 1
      ensures Valid() && this.maxSize == maxSize && trace == [Now()]
      ensures connections == [] && !closed && forall p :: p > CHECKER ==> Pc(p) == Idle
    {
      this.maxSize := maxSize;
      this.now := now;
      connections, lastUsed, healthStatus, dialSem, closed, done := [], map[], map[], 0, false, false;
      next, shut, timedOut, killed, lastOp, probes := 1, {}, {}, {}, NoOp, 0;
      procs := map[SWEEPER := SweepWait, CHECKER := HealthWait];
      new;
      trace := [Now()];
    }

    /** The access just made by `me`, in routine r, is the next step of the execution. */
    ghost method Arrive(r: Routine, me: Pid, pc: Pc)
      requires IsRun(trace) && trace[|trace| - 1].procs == procs
      requires StepIn(r, trace[|trace| - 1].g, Pc(me), Now().g, pc)
      modifies this`procs, this`trace
      ensures Valid() && trace == old(trace) + [Now()] && procs == old(procs)[me := pc]
    {
      var before := trace[|trace| - 1];
      procs := procs[me := pc];
      assert Step(before, me, Now());
      trace := trace + [Now()];
      forall i | 0 <= i < |trace| - 1 ensures NextAt(trace, i) {
        if i < |old(trace)| - 1 {
          assert NextAt(old(trace), i);
        }
      }
    }

    /** Any number of steps by everybody else. */
    method Interfere(ghost me: Pid)
      requires Valid()
      modifies this
      ensures Valid() && old(trace) <= trace && Pc(me) == old(Pc(me))
      ensures old(now) <= now && old(next) <= next
    {
    }

    /** Blocked until a dial slot is free or the context has ended. */
    method BlockForSlot(ghost me: Pid, deadline: Time)
      requires Valid()
      modifies this
      ensures Valid() && old(trace) <= trace && Pc(me) == old(Pc(me))
      ensures old(now) <= now && old(next) <= next
      ensures dialSem < MAX_CONCURRENT_DIALS || now >= deadline
    {
      Interfere(me);
      if dialSem >= MAX_CONCURRENT_DIALS && now < deadline {
        TimePasses(deadline);
      }
    }

    method TimePasses(until: Time)
      requires Valid() && now <= until
      modifies this`now, this`trace
      ensures Valid() && trace == old(trace) + [Now()] && now == until
    {
      ghost var before := Now();
      now := until;
      assert Tick(before, Now());
      trace := trace + [Now()];
      forall i | 0 <= i < |trace| - 1 ensures NextAt(trace, i) {
        if i < |old(trace)| - 1 {
          assert NextAt(old(trace), i);
        }
      }
    }

    /** What a later state owes to an earlier one of the same execution. */
    twostate lemma ClosedShrinks()
      requires old(Valid()) && Valid() && old(trace) <= trace && old(closed)
      ensures closed && Open(Now()) <= old(Open(Now()))
      ensures old(done) ==> done
    {
      ClosedRunsShrink(trace, |old(trace)| - 1, |trace| - 1);
    }

    // ---- forget, pool.go:219-225 ----

    method Forget(ghost me: Pid, conn: Client, ghost after: After)
      requires Valid() && Pc(me) == Untrack(conn, after)
      modifies this
      ensures Valid() && old(trace) <= trace && old(next) <= next
      ensures Pc(me) == Resume(after)
      ensures old(closed) ==> closed && Open(Now()) < old(Open(Now()))
    {
      DeleteRecordsAndGoOn(me, conn, after);
      CloseClientAndGoOn(me, conn, after);
    }

    method DeleteRecordsAndGoOn(ghost me: Pid, conn: Client, ghost after: After)
      requires Valid() && Pc(me) == Untrack(conn, after)
      modifies this
      ensures Valid() && old(trace) <= trace && old(next) <= next && Pc(me) == Shut(conn, after)
      ensures old(closed) ==> closed && Open(Now()) <= old(Open(Now()))
    {
      DeleteRecords(me, conn, after);
      Interfere(me);
      if old(closed) { ClosedShrinks(); }
    }

    method CloseClientAndGoOn(ghost me: Pid, conn: Client, ghost after: After)
      requires Valid() && Pc(me) == Shut(conn, after)
      modifies this
      ensures Valid() && old(trace) <= trace && old(next) <= next && Pc(me) == Resume(after)
      ensures old(closed) ==> closed && Open(Now()) < old(Open(Now()))
    {
      CloseClient(me, conn, after);
      label closedOne:
      Interfere(me);
      if old(closed) { ClosedShrinks@closedOne(); }
    }

    method DeleteRecords(ghost me: Pid, conn: Client, ghost after: After)
      requires Valid() && Pc(me) == Untrack(conn, after)
      modifies this`lastUsed, this`healthStatus, this`procs, this`trace
      ensures Valid() && trace == old(trace) + [Now()]
      ensures Pc(me) == Shut(conn, after)
      ensures lastUsed == old(lastUsed) - {conn} && healthStatus == old(healthStatus) - {conn}
    {
      lastUsed, healthStatus := lastUsed - {conn}, healthStatus - {conn};
      Arrive(Routine.Forget, me, Shut(conn, after));
    }

    method CloseClient(ghost me: Pid, conn: Client, ghost after: After)
      requires Valid() && Pc(me) == Shut(conn, after)
      modifies this`shut, this`procs, this`trace
      ensures Valid() && trace == old(trace) + [Now()]
      ensures shut == old(shut) + {conn}
      ensures Pc(me) == Resume(after)
      ensures old(closed) ==> closed && Open(Now()) < old(Open(Now()))
    {
      NowIsReachable();
      shut := shut + {conn};
      Arrive(Routine.Forget, me, Resume(after));
      assert StepIn(Routine.Forget, old(Now()).g, old(Pc(me)), Now().g, Pc(me));
      if closed {
        CloseShrinks(old(Now()), me, Now());
      }
    }

    // ---- the loop that empties the channel of a closed pool, pool.go:201-210 and 304-313 ----

    /** Ends because every turn takes a client out of play for good. */
    method Drain(ghost me: Pid, ghost r: Routine, ghost again: Pc, ghost after: After)
      requires Valid() && closed && Pc(me) == again
      requires || (r, again, after) == (Routine.Put, PutDrain, DrainOn)
               || (r, again, after) == (Routine.CloseAll, CloseDrain, CloseOn)
      modifies this
      ensures Valid() && old(trace) <= trace
      ensures Pc(me) == Idle
    {
      var more := true;
      while more
        invariant Valid() && old(trace) <= trace && closed
        invariant Pc(me) == if more then again else Idle
        decreases if more then 1 + Open(Now()) else 0
      {
        more := DrainTurn(me, r, again, after);
      }
    }

    method DrainTurn(ghost me: Pid, ghost r: Routine, ghost again: Pc, ghost after: After) returns (more: bool)
      requires Valid() && closed && Pc(me) == again
      requires || (r, again, after) == (Routine.Put, PutDrain, DrainOn)
               || (r, again, after) == (Routine.CloseAll, CloseDrain, CloseOn)
      modifies this
      ensures Valid() && old(trace) <= trace && closed
      ensures Pc(me) == if more then again else Idle
      ensures more ==> Open(Now()) < old(Open(Now()))
    {
      var conn;
      conn, more := ReceiveAndGoOn(me, r, again, after);
      if more && conn != NIL {
        Forget(me, conn, after);
      }
    }

    method ReceiveAndGoOn(ghost me: Pid, ghost r: Routine, ghost again: Pc, ghost after: After)
      returns (conn: Client, some: bool)
      requires Valid() && closed && Pc(me) == again
      requires || (r, again, after) == (Routine.Put, PutDrain, DrainOn)
               || (r, again, after) == (Routine.CloseAll, CloseDrain, CloseOn)
      modifies this
      ensures Valid() && old(trace) <= trace && closed
      ensures Pc(me) == if !some then Idle else if conn == NIL then again else Untrack(conn, after)
      ensures Open(Now()) <= old(Open(Now()))
      ensures some && conn == NIL ==> Open(Now()) < old(Open(Now()))
    {
      conn, some := Receive(me, r, again, after);
      label received:
      Interfere(me);
      ClosedShrinks@received();
    }

    method Receive(ghost me: Pid, ghost r: Routine, ghost again: Pc, ghost after: After)
      returns (conn: Client, some: bool)
      requires Valid() && closed && Pc(me) == again
      requires || (r, again, after) == (Routine.Put, PutDrain, DrainOn)
               || (r, again, after) == (Routine.CloseAll, CloseDrain, CloseOn)
      modifies this`connections, this`lastOp, this`procs, this`trace
      ensures Valid() && trace == old(trace) + [Now()] && closed
      ensures some == (old(connections) != [])
      ensures some ==> conn == old(connections[0]) && connections == old(connections[1..])
      ensures Pc(me) == if !some then Idle else if conn == NIL then again else Untrack(conn, after)
      ensures Open(Now()) <= old(Open(Now()))
      ensures some && conn == NIL ==> Open(Now()) < old(Open(Now()))
    {
      some, conn := connections != [], NIL;
      if some {
        conn := connections[0];
        connections, lastOp := connections[1..], Received;
      }
      Arrive(r, me, if !some then Idle else if conn == NIL then again else Untrack(conn, after));
      ClosedShrinks();
      CountMove(old(procs), me, Pc(me), InPlay);
    }

    // ---- Put, pool.go:171-216 ----

    method Put(ghost me: Pid, conn: Client)
      requires Valid()
      requires if conn == NIL then Pc(me) == Idle else Pc(me) == Using(conn)
      modifies this
      ensures Valid() && old(trace) <= trace
      ensures Pc(me) == Idle
    {
      if conn == NIL {
        return;
      }
      var isClosed := PutFirstLook(me, conn);
      if isClosed {
        Forget(me, conn, Return);
      } else {
        PutOpen(me, conn);
      }
    }

    method PutFirstLook(ghost me: Pid, conn: Client) returns (isClosed: bool)
      requires Valid() && Pc(me) == Using(conn)
      modifies this
      ensures Valid() && old(trace) <= trace
      ensures Pc(me) == if isClosed then Untrack(conn, Return) else PutTrack(conn)
    {
      BeginPut(me, conn);
      Interfere(me);
      isClosed := PutLoadClosed(me, conn);
      Interfere(me);
    }

    /** The pool was open at the first look. */
    method PutOpen(ghost me: Pid, conn: Client)
      requires Valid() && Pc(me) == PutTrack(conn)
      modifies this
      ensures Valid() && old(trace) <= trace
      ensures Pc(me) == Idle
    {
      var sent := PutRecordsAndSends(me, conn);
      if sent {
        PutRecheckAndDrain(me);
      } else {
        Forget(me, conn, Return);
      }
    }

    method PutRecordsAndSends(ghost me: Pid, conn: Client) returns (sent: bool)
      requires Valid() && Pc(me) == PutTrack(conn)
      modifies this
      ensures Valid() && old(trace) <= trace
      ensures Pc(me) == if sent then PutRecheck else Untrack(conn, Return)
    {
      PutRecords(me, conn);
      Interfere(me);
      sent := TrySend(me, conn);
      Interfere(me);
    }

    /** The second look at `closed` after the send. */
    method PutRecheckAndDrain(ghost me: Pid)
      requires Valid() && Pc(me) == PutRecheck
      modifies this
      ensures Valid() && old(trace) <= trace
      ensures Pc(me) == Idle
    {
      var isClosed := PutReloadClosed(me);
      label reloaded:
      Interfere(me);
      if isClosed {
        ClosedShrinks@reloaded();
        Drain(me, Routine.Put, PutDrain, DrainOn);
      }
    }

    method BeginPut(ghost me: Pid, conn: Client)
      requires Valid() && Pc(me) == Using(conn)
      modifies this`procs, this`trace
      ensures Valid() && trace == old(trace) + [Now()]
      ensures Pc(me) == PutCheck(conn)
    {
      Arrive(Routine.Put, me, PutCheck(conn));
    }

    method PutLoadClosed(ghost me: Pid, conn: Client) returns (isClosed: bool)
      requires Valid() && Pc(me) == PutCheck(conn)
      modifies this`procs, this`trace
      ensures Valid() && trace == old(trace) + [Now()]
      ensures isClosed == closed == old(closed)
      ensures Pc(me) == if isClosed then Untrack(conn, Return) else PutTrack(conn)
    {
      isClosed := closed;
      Arrive(Routine.Put, me, if isClosed then Untrack(conn, Return) else PutTrack(conn));
    }

    method PutRecords(ghost me: Pid, conn: Client)
      requires Valid() && Pc(me) == PutTrack(conn)
      modifies this`lastUsed, this`healthStatus, this`procs, this`trace
      ensures Valid() && trace == old(trace) + [Now()]
      ensures Pc(me) == PutSend(conn)
      ensures lastUsed == old(lastUsed)[conn := now]
      ensures healthStatus == if conn in old(healthStatus) then old(healthStatus)
                              else old(healthStatus)[conn := Health(true, now)]
    {
      lastUsed := lastUsed[conn := now];
      if conn !in healthStatus {
        healthStatus := healthStatus[conn := Health(true, now)];
      }
      Arrive(Routine.Put, me, PutSend(conn));
    }

    method TrySend(ghost me: Pid, conn: Client) returns (sent: bool)
      requires Valid() && Pc(me) == PutSend(conn)
      modifies this`connections, this`lastOp, this`procs, this`trace
      ensures Valid() && trace == old(trace) + [Now()]
      ensures sent == (|old(connections)| < maxSize)
      ensures connections == if sent then old(connections) + [conn] else old(connections)
      ensures Pc(me) == if sent then PutRecheck else Untrack(conn, Return)
    {
      sent := |connections| < maxSize;
      if sent {
        connections, lastOp := connections + [conn], Sent(conn, false, closed);
      }
      Arrive(Routine.Put, me, if sent then PutRecheck else Untrack(conn, Return));
    }

    method PutReloadClosed(ghost me: Pid) returns (isClosed: bool)
      requires Valid() && Pc(me) == PutRecheck
      modifies this`procs, this`trace
      ensures Valid() && trace == old(trace) + [Now()]
      ensures isClosed == closed == old(closed)
      ensures Pc(me) == if isClosed then PutDrain else Idle
    {
      isClosed := closed;
      Arrive(Routine.Put, me, if isClosed then PutDrain else Idle);
    }

    // ---- closeAll, pool.go:297-314 ----

    method CloseAll(ghost me: Pid)
      requires Valid() && Pc(me) == Idle
      modifies this
      ensures Valid() && old(trace) <= trace
      ensures Pc(me) == Idle && closed
      ensures if old(closed) then trace == old(trace) else done
    {
      if !closed {
        CloseOnce(me);
        DrainClosed(me);
      }
    }

    method CloseOnce(ghost me: Pid)
      requires Valid() && Pc(me) == Idle && !closed
      modifies this
      ensures Valid() && old(trace) <= trace
      ensures closed && done && Pc(me) == CloseDrain
    {
      SwapClosed(me);
      label swapped:
      Interfere(me);
      ClosedShrinks@swapped();
      CloseDone(me);
    }

    method DrainClosed(ghost me: Pid)
      requires Valid() && closed && done && Pc(me) == CloseDrain
      modifies this
      ensures Valid() && old(trace) <= trace
      ensures closed && done && Pc(me) == Idle
    {
      Interfere(me);
      ClosedShrinks();
      Drain(me, Routine.CloseAll, CloseDrain, CloseOn);
      ClosedShrinks();
    }

    method SwapClosed(ghost me: Pid)
      requires Valid() && Pc(me) == Idle && !closed
      modifies this`closed, this`procs, this`trace
      ensures Valid() && trace == old(trace) + [Now()]
      ensures closed && Pc(me) == CloseSignal
    {
      closed := true;
      Arrive(Routine.CloseAll, me, CloseSignal);
    }

    /** close(p.done); closing it a second time would panic. */
    method CloseDone(ghost me: Pid)
      requires Valid() && Pc(me) == CloseSignal
      modifies this`done, this`procs, this`trace
      ensures Valid() && trace == old(trace) + [Now()]
      ensures !old(done) && done
      ensures Pc(me) == CloseDrain
    {
      NowIsReachable();
      DoneIsClosedOnce(Now(), me);
      done := true;
      Arrive(Routine.CloseAll, me, CloseDrain);
    }

    // ---- createConnection, pool.go:230-292 ----

    /** It comes back with a client made since.  If it fails, `at` is where in the execution: the pool
        was closed, the queue left or the dial lost. */
    method CreateConnection(ghost me: Pid, out: Outside) returns (conn: Client, ok: bool, ghost at: nat)
      requires Valid() && Pc(me) == DialCheck
      modifies this
      ensures Valid() && old(trace) <= trace
      ensures Pc(me) == if ok then Using(conn) else Idle
      ensures ok <==> conn != NIL
      ensures ok ==> old(next) <= conn
      ensures !ok ==> |old(trace)| <= at < |trace| && GivesUp(trace, at, me, out)
    {
      conn, ok := NIL, false;
      var may;
      may, at := MayDial(me, out);
      if may {
        conn, ok, at := DialWithSlot(me, out);
      }
    }

    method MayDial(ghost me: Pid, out: Outside) returns (may: bool, ghost at: nat)
      requires Valid() && Pc(me) == DialCheck
      modifies this
      ensures Valid() && old(trace) <= trace && old(next) <= next
      ensures Pc(me) == if may then Dialling else Idle
      ensures !may ==> |old(trace)| <= at < |trace| && GivesUp(trace, at, me, out)
    {
      at := |trace|;
      may := DialLoadClosed(me);
      may := !may;
      if may {
        may, at := QueueForSlot(me, out);
      }
    }

    method QueueForSlot(ghost me: Pid, out: Outside) returns (may: bool, ghost at: nat)
      requires Valid() && Pc(me) == DialSlot
      modifies this
      ensures Valid() && old(trace) <= trace && old(next) <= next
      ensures Pc(me) == if may then Dialling else Idle
      ensures !may ==> |old(trace)| <= at < |trace| && GivesUp(trace, at, me, out)
    {
      BlockForSlot(me, out.deadline);
      at := |trace|;
      may := AcquireDialSlot(me, out.deadline);
    }

    /** Between taking a dial slot and giving it back. */
    method DialWithSlot(ghost me: Pid, out: Outside) returns (conn: Client, ok: bool, ghost at: nat)
      requires Valid() && Pc(me) == Dialling
      modifies this
      ensures Valid() && old(trace) <= trace
      ensures Pc(me) == if ok then Using(conn) else Idle
      ensures ok <==> conn != NIL
      ensures ok ==> old(next) <= conn
      ensures !ok ==> |old(trace)| <= at < |trace| && GivesUp(trace, at, me, out)
    {
      conn, ok := DialAndRecord(me, out);
      at := |trace|;
      ReleaseDialSlot(me, conn, ok);
    }

    method DialAndRecord(ghost me: Pid, out: Outside) returns (conn: Client, ok: bool)
      requires Valid() && Pc(me) == Dialling
      modifies this
      ensures Valid() && old(trace) <= trace
      ensures Pc(me) == if ok then DialDone(conn) else DialFailed
      ensures ok <==> conn != NIL
      ensures ok ==> old(next) <= conn
      ensures !ok ==> !out.connects || now >= out.deadline
    {
      Interfere(me);
      conn, ok := DialAndGoOn(me, out);
      if ok {
        RecordClient(me, conn);
        Interfere(me);
      }
    }

    method DialAndGoOn(ghost me: Pid, out: Outside) returns (conn: Client, ok: bool)
      requires Valid() && Pc(me) == Dialling
      modifies this
      ensures Valid() && old(trace) <= trace
      ensures Pc(me) == if ok then DialRegister(conn) else DialFailed
      ensures ok <==> conn != NIL
      ensures ok ==> old(next) <= conn
      ensures !ok ==> !out.connects || now >= out.deadline
    {
      conn, ok := DialAndHandshake(me, out);
      Interfere(me);
    }

    method DialLoadClosed(ghost me: Pid) returns (isClosed: bool)
      requires Valid() && Pc(me) == DialCheck
      modifies this`procs, this`trace
      ensures Valid() && trace == old(trace) + [Now()]
      ensures isClosed == closed == old(closed)
      ensures Pc(me) == if isClosed then Idle else DialSlot
    {
      isClosed := closed;
      Arrive(Routine.CreateConnection, me, if isClosed then Idle else DialSlot);
    }

    /** Select between a slot and the end of the context. */
    method AcquireDialSlot(ghost me: Pid, deadline: Time) returns (acquired: bool)
      requires Valid() && Pc(me) == DialSlot && (dialSem < MAX_CONCURRENT_DIALS || now >= deadline)
      modifies this`dialSem, this`procs, this`trace
      ensures Valid() && trace == old(trace) + [Now()]
      ensures acquired ==> old(dialSem) < MAX_CONCURRENT_DIALS && dialSem == old(dialSem) + 1
      ensures Pc(me) == if acquired then Dialling else Idle
      ensures !acquired ==> dialSem == old(dialSem) && now >= deadline
    {
      if {
        case dialSem < MAX_CONCURRENT_DIALS =>
          acquired, dialSem := true, dialSem + 1;
        case now >= deadline =>
          acquired := false;
      }
      Arrive(Routine.CreateConnection, me, if acquired then Dialling else Idle);
    }

    method DialAndHandshake(ghost me: Pid, out: Outside) returns (conn: Client, ok: bool)
      requires Valid() && Pc(me) == Dialling
      modifies this`next, this`procs, this`trace
      ensures Valid() && trace == old(trace) + [Now()]
      ensures ok <==> out.connects && now < out.deadline
      ensures ok <==> conn != NIL
      ensures ok ==> conn == old(next) && next == old(next) + 1
      ensures Pc(me) == if ok then DialRegister(conn) else DialFailed
      ensures !ok ==> next == old(next)
    {
      NowIsReachable();
      CreatedIsNotNil(Now());
      ok, conn := out.connects && now < out.deadline, NIL;
      if ok {
        conn, next := next, next + 1;
      }
      Arrive(Routine.CreateConnection, me, if ok then DialRegister(conn) else DialFailed);
    }

    method RecordClient(ghost me: Pid, conn: Client)
      requires Valid() && Pc(me) == DialRegister(conn)
      modifies this`lastUsed, this`healthStatus, this`procs, this`trace
      ensures Valid() && trace == old(trace) + [Now()]
      ensures Pc(me) == DialDone(conn)
      ensures lastUsed == old(lastUsed)[conn := now] && healthStatus == old(healthStatus)[conn := Health(true, now)]
    {
      lastUsed, healthStatus := lastUsed[conn := now], healthStatus[conn := Health(true, now)];
      Arrive(Routine.CreateConnection, me, DialDone(conn));
    }

    /** The deferred receive from the semaphore, pool.go:238, finds a token to take. */
    method ReleaseDialSlot(ghost me: Pid, conn: Client, ok: bool)
      requires Valid() && Pc(me) == if ok then DialDone(conn) else DialFailed
      modifies this`dialSem, this`procs, this`trace
      ensures Valid() && trace == old(trace) + [Now()]
      ensures old(dialSem) > 0 && dialSem == old(dialSem) - 1
      ensures Pc(me) == if ok then Using(conn) else Idle
    {
      NowIsReachable();
      SemaphoresHold(Now());
      dialSem := dialSem - 1;
      Arrive(Routine.CreateConnection, me, if ok then Using(conn) else Idle);
    }

    // ---- Prewarm, pool.go:84-91 ----

    /** One of the goroutines that fill the pool: it dials without looking at the channel, and puts
        what it made into it. */
    method PrewarmOne(ghost me: Pid, out: Outside) returns (ghost at: nat)
      requires Valid() && Pc(me) == Idle
      modifies this
      ensures Valid() && old(trace) <= trace && Pc(me) == Idle
      ensures |old(trace)| <= at < |trace| && (GivesUp(trace, at, me, out) || PutsBack(trace, at, me, old(next)))
    {
      BeginPrewarm(me);
      at := DialAndPut(me, out);
    }

    method BeginPrewarm(ghost me: Pid)
      requires Valid() && Pc(me) == Idle
      modifies this`procs, this`trace
      ensures Valid() && trace == old(trace) + [Now()] && Pc(me) == DialCheck
    {
      Arrive(Routine.CreateConnection, me, DialCheck);
    }

    method DialAndPut(ghost me: Pid, out: Outside) returns (ghost at: nat)
      requires Valid() && Pc(me) == DialCheck
      modifies this
      ensures Valid() && old(trace) <= trace && Pc(me) == Idle
      ensures |old(trace)| <= at < |trace| && (GivesUp(trace, at, me, out) || PutsBack(trace, at, me, old(next)))
    {
      var conn, ok;
      conn, ok, at := CreateConnection(me, out);
      if ok {
        at := |trace| - 1;
        Put(me, conn);
      }
    }

    // ---- Get, pool.go:98-148 ----

    /** Nothing is touched if the context has ended.  Else it looks at the channel and comes back with
        its head, if that answers or is known to be healthy, or with a client made since; it fails only
        if the pool was closed, the queue left or the dial lost. */
    method Get(ghost me: Pid, out: Outside) returns (conn: Client, ok: bool, ghost trail: Trail)
      requires Valid() && Pc(me) == Idle
      modifies this
      ensures Valid() && old(trace) <= trace
      ensures Pc(me) == if ok then Using(conn) else Idle
      ensures ok <==> conn != NIL
      ensures if old(now) >= out.deadline then !ok && trace == old(trace)
              else GetsRight(trace, |old(trace)|, me, out, old(next), conn, trail)
    {
      conn, ok, trail := NIL, false, Trail(0, 0, 0);
      if now < out.deadline {
        conn, ok, trail := TakeOrDial(me, out);
      }
    }

    method TakeOrDial(ghost me: Pid, out: Outside) returns (conn: Client, ok: bool, ghost trail: Trail)
      requires Valid() && Pc(me) == Idle
      modifies this
      ensures Valid() && old(trace) <= trace
      ensures Pc(me) == if ok then Using(conn) else Idle
      ensures ok <==> conn != NIL
      ensures GetsRight(trace, |old(trace)|, me, out, old(next), conn, trail)
    {
      ghost var taken;
      conn, taken := TakeIdle(me);
      ok, trail := false, Trail(taken, 0, 0);
      ghost var head, early := conn, trace;
      if conn != NIL {
        ghost var replaced;
        ok, replaced := Reuse(me, conn, out);
        trail := trail.(replaced := replaced);
      }
      if !ok {
        ghost var failed, middle := 0, trace;
        conn, ok, failed := CreateConnection(me, out);
        trail := trail.(failed := failed);
        if head != NIL {
          ReplacesStays(middle, trace, trail.replaced, me, head, out);
        }
      }
      TakesHeadStays(early, trace, taken, me);
    }

    method TakeIdle(ghost me: Pid) returns (conn: Client, ghost taken: nat)
      requires Valid() && Pc(me) == Idle
      modifies this
      ensures Valid() && old(trace) <= trace && old(next) <= next
      ensures Pc(me) == if conn == NIL then DialCheck else GetInspect(conn)
      ensures |old(trace)| <= taken && taken + 1 < |trace| && TakesHead(trace, taken, me)
      ensures conn == Head(trace[taken].g)
    {
      Arrive(Routine.Get, me, GetTake);
      Interfere(me);
      conn, taken := TryReceiveAndGoOn(me);
    }

    method TryReceiveAndGoOn(ghost me: Pid) returns (conn: Client, ghost taken: nat)
      requires Valid() && Pc(me) == GetTake
      modifies this
      ensures Valid() && old(trace) <= trace && old(next) <= next
      ensures Pc(me) == if conn == NIL then DialCheck else GetInspect(conn)
      ensures taken == |old(trace)| - 1 && |old(trace)| < |trace| && TakesHead(trace, taken, me)
      ensures conn == Head(trace[taken].g)
    {
      taken := |trace| - 1;
      conn := TryReceive(me);
      ghost var after := trace;
      Interfere(me);
      TakesHeadStays(after, trace, taken, me);
    }

    /** A client received from the channel is used if it is healthy, and replaced if not. */
    method Reuse(ghost me: Pid, conn: Client, out: Outside) returns (ok: bool, ghost replaced: nat)
      requires Valid() && Pc(me) == GetInspect(conn)
      modifies this
      ensures Valid() && old(trace) <= trace && old(next) <= next
      ensures Pc(me) == if ok then Using(conn) else DialCheck
      ensures !ok ==> |old(trace)| <= replaced < |trace| && Replaces(trace, replaced, me, conn, out)
    {
      replaced := 0;
      ok := MarkUsed(me, conn);
      Interfere(me);
      if !ok {
        ok, replaced := ReuseIfAlive(me, conn, out);
      }
    }

    method ReuseIfAlive(ghost me: Pid, conn: Client, out: Outside) returns (ok: bool, ghost replaced: nat)
      requires Valid() && Pc(me) == GetProbe(conn)
      modifies this
      ensures Valid() && old(trace) <= trace && old(next) <= next
      ensures Pc(me) == if ok then Using(conn) else DialCheck
      ensures !ok ==> |old(trace)| <= replaced < |trace| && Replaces(trace, replaced, me, conn, out)
    {
      ok, replaced := KeepaliveAndGoOn(me, conn, out);
      if ok {
        MarkHealthy(me, conn);
      } else {
        ghost var before := trace;
        Forget(me, conn, Redial);
        ReplacesStays(before, trace, replaced, me, conn, out);
      }
    }

    /** An empty channel and a nil client both lead to a new connection. */
    method TryReceive(ghost me: Pid) returns (conn: Client)
      requires Valid() && Pc(me) == GetTake
      modifies this`connections, this`lastOp, this`procs, this`trace
      ensures Valid() && trace == old(trace) + [Now()]
      ensures conn == if old(connections) == [] then NIL else old(connections[0])
      ensures Pc(me) == if conn == NIL then DialCheck else GetInspect(conn)
      ensures connections == if old(connections) == [] then [] else old(connections[1..])
    {
      conn := NIL;
      if connections != [] {
        conn := connections[0];
        connections, lastOp := connections[1..], Received;
      }
      Arrive(Routine.Get, me, if conn == NIL then DialCheck else GetInspect(conn));
    }

    method MarkUsed(ghost me: Pid, conn: Client) returns (isHealthy: bool)
      requires Valid() && Pc(me) == GetInspect(conn)
      modifies this`lastUsed, this`procs, this`trace
      ensures Valid() && trace == old(trace) + [Now()]
      ensures Pc(me) == if isHealthy then Using(conn) else GetProbe(conn)
      ensures lastUsed == old(lastUsed)[conn := now]
      ensures isHealthy <==>
                conn in healthStatus && now - healthStatus[conn].lastChecked < MINUTE && healthStatus[conn].healthy
    {
      lastUsed := lastUsed[conn := now];
      isHealthy := conn in healthStatus && now - healthStatus[conn].lastChecked < MINUTE && healthStatus[conn].healthy;
      Arrive(Routine.Get, me, if isHealthy then Using(conn) else GetProbe(conn));
    }

    method KeepaliveAndGoOn(ghost me: Pid, conn: Client, out: Outside) returns (alive: bool, ghost at: nat)
      requires Valid() && Pc(me) == GetProbe(conn)
      modifies this
      ensures Valid() && old(trace) <= trace && old(next) <= next
      ensures Pc(me) == if alive then GetRefresh(conn) else Untrack(conn, Redial)
      ensures !alive ==> |old(trace)| <= at < |trace| && Replaces(trace, at, me, conn, out)
    {
      at := |trace|;
      alive := KeepaliveCheck(me, conn, out.answers);
      Interfere(me);
    }

    /** `answers` is whether an open client would answer in time. */
    method KeepaliveCheck(ghost me: Pid, conn: Client, answers: bool) returns (alive: bool)
      requires Valid() && Pc(me) == GetProbe(conn)
      modifies this`procs, this`trace
      ensures Valid() && trace == old(trace) + [Now()]
      ensures alive <==> answers && conn !in shut
      ensures Pc(me) == if alive then GetRefresh(conn) else Untrack(conn, Redial)
    {
      alive := answers && conn !in shut;
      Arrive(Routine.Get, me, if alive then GetRefresh(conn) else Untrack(conn, Redial));
    }

    method MarkHealthy(ghost me: Pid, conn: Client)
      requires Valid() && Pc(me) == GetRefresh(conn)
      modifies this`healthStatus, this`procs, this`trace
      ensures Valid() && trace == old(trace) + [Now()]
      ensures Pc(me) == Using(conn)
      ensures healthStatus == old(healthStatus)[conn := Health(true, now)]
    {
      healthStatus := healthStatus[conn := Health(true, now)];
      Arrive(Routine.Get, me, Using(conn));
    }

    // ---- cleanupIdleConnectionsOnce, pool.go:335-363, run by the sweeper ----

    method CleanupIdleConnectionsOnce()
      requires Valid() && Pc(SWEEPER) == SweepCount
      modifies this
      ensures Valid() && old(trace) <= trace
      ensures Pc(SWEEPER) == SweepWait
    {
      var numConns := CountIdle();
      Interfere(SWEEPER);
      SweepUpTo(numConns);
    }

    method SweepUpTo(numConns: nat)
      requires Valid() && Pc(SWEEPER) == SweepLoop(0, numConns)
      modifies this
      ensures Valid() && old(trace) <= trace
      ensures Pc(SWEEPER) == SweepWait
    {
      var i, more := 0, true;
      while more
        invariant Valid() && old(trace) <= trace
        invariant i <= numConns
        invariant Pc(SWEEPER) == if more then SweepLoop(i, numConns) else SweepWait
        decreases numConns - i, more
      {
        more := SweepTurn(i, numConns);
        i := if more then i + 1 else i;
      }
    }

    method SweepTurn(i: nat, numConns: nat) returns (more: bool)
      requires Valid() && Pc(SWEEPER) == SweepLoop(i, numConns)
      modifies this
      ensures Valid() && old(trace) <= trace && (more ==> i < numConns)
      ensures Pc(SWEEPER) == if more then SweepLoop(i + 1, numConns) else SweepWait
    {
      var conn;
      conn, more := SweepReceive(i, numConns);
      Interfere(SWEEPER);
      if more {
        SweepOne(conn, i, numConns);
      }
    }

    /** One received client: forget it if it expired or no longer fits, else put it back. */
    method SweepOne(conn: Client, i: nat, numConns: nat)
      requires Valid() && Pc(SWEEPER) == SweepInspect(conn, i, numConns)
      modifies this
      ensures Valid() && old(trace) <= trace
      ensures Pc(SWEEPER) == SweepLoop(i + 1, numConns)
    {
      var expired := SweepLookup(conn, i, numConns);
      Interfere(SWEEPER);
      if expired {
        Forget(SWEEPER, conn, SweepOn(i + 1, numConns));
      } else {
        SweepPutBack(conn, i, numConns);
      }
    }

    method SweepPutBack(conn: Client, i: nat, numConns: nat)
      requires Valid() && Pc(SWEEPER) == SweepResend(conn, i, numConns)
      modifies this
      ensures Valid() && old(trace) <= trace
      ensures Pc(SWEEPER) == SweepLoop(i + 1, numConns)
    {
      var full := SweepTryResend(conn, i, numConns);
      Interfere(SWEEPER);
      if full {
        Forget(SWEEPER, conn, SweepOn(i + 1, numConns));
      }
    }

    method CountIdle() returns (numConns: nat)
      requires Valid() && Pc(SWEEPER) == SweepCount
      modifies this`procs, this`trace
      ensures Valid() && trace == old(trace) + [Now()]
      ensures numConns == |connections|
      ensures Pc(SWEEPER) == SweepLoop(0, numConns)
    {
      numConns := |connections|;
      Arrive(Routine.Cleanup, SWEEPER, SweepLoop(0, numConns));
    }

    method SweepReceive(i: nat, numConns: nat) returns (conn: Client, some: bool)
      requires Valid() && Pc(SWEEPER) == SweepLoop(i, numConns)
      modifies this`connections, this`lastOp, this`procs, this`trace
      ensures Valid() && trace == old(trace) + [Now()]
      ensures some == (i < numConns && old(connections) != [])
      ensures some ==> conn == old(connections[0]) && connections == old(connections[1..])
      ensures Pc(SWEEPER) == if some then SweepInspect(conn, i, numConns) else SweepWait
      ensures !some ==> connections == old(connections)
    {
      some, conn := i < numConns && connections != [], NIL;
      if some {
        conn := connections[0];
        connections, lastOp := connections[1..], Received;
      }
      Arrive(Routine.Cleanup, SWEEPER, if some then SweepInspect(conn, i, numConns) else SweepWait);
    }

    method SweepLookup(conn: Client, i: nat, numConns: nat) returns (expired: bool)
      requires Valid() && Pc(SWEEPER) == SweepInspect(conn, i, numConns)
      modifies this`procs, this`trace
      ensures Valid() && trace == old(trace) + [Now()]
      ensures expired == (conn in lastUsed && now - lastUsed[conn] > HOUR)
      ensures Pc(SWEEPER) == if expired then Untrack(conn, SweepOn(i + 1, numConns)) else SweepResend(conn, i, numConns)
    {
      expired := conn in lastUsed && now - lastUsed[conn] > HOUR;
      Arrive(Routine.Cleanup, SWEEPER,
             if expired then Untrack(conn, SweepOn(i + 1, numConns)) else SweepResend(conn, i, numConns));
    }

    method SweepTryResend(conn: Client, i: nat, numConns: nat) returns (full: bool)
      requires Valid() && Pc(SWEEPER) == SweepResend(conn, i, numConns)
      modifies this`connections, this`lastOp, this`procs, this`trace
      ensures Valid() && trace == old(trace) + [Now()]
      ensures full == (|old(connections)| >= maxSize)
      ensures connections == if full then old(connections) else old(connections) + [conn]
      ensures Pc(SWEEPER) == if full then Untrack(conn, SweepOn(i + 1, numConns)) else SweepLoop(i + 1, numConns)
    {
      full := |connections| >= maxSize;
      if !full {
        connections, lastOp := connections + [conn], Sent(conn, true, closed);
      }
      Arrive(Routine.Cleanup, SWEEPER,
             if full then Untrack(conn, SweepOn(i + 1, numConns)) else SweepLoop(i + 1, numConns));
    }

    // ---- one prober of checkAllConnectionsHealth, pool.go:403-432 ----

    /** `late` is the outcome errKeepaliveTimeout; `answers`, that an open client would answer; `at`
        is where the outcome is known. */
    method ProbeHealth(ghost me: Pid, conn: Client, late: bool, answers: bool) returns (ghost at: nat)
      requires Valid() && Pc(me) == HealthProbe(conn)
      modifies this
      ensures Valid() && old(trace) <= trace
      ensures Pc(me) == Idle
      ensures |old(trace)| <= at < |trace| && Probed(trace, at, me, conn, late, answers)
    {
      at := ProbeAndRecord(me, conn, late, answers);
      Interfere(me);
      ProberEnds(me);
    }

    method ProbeAndRecord(ghost me: Pid, conn: Client, late: bool, answers: bool) returns (ghost at: nat)
      requires Valid() && Pc(me) == HealthProbe(conn)
      modifies this
      ensures Valid() && old(trace) <= trace
      ensures Pc(me) == HealthEnd
      ensures |old(trace)| <= at < |trace| && Probed(trace, at, me, conn, late, answers)
    {
      var alive;
      alive, at := ProbeAndGoOn(me, conn, late, answers);
      if late {
        ProberForgets(me, conn);
      } else {
        MarkChecked(me, conn, alive);
      }
    }

    method ProberForgets(ghost me: Pid, conn: Client)
      requires Valid() && Pc(me) == HealthUntrack(conn)
      modifies this
      ensures Valid() && old(trace) <= trace
      ensures Pc(me) == HealthEnd
    {
      ProberDeletes(me, conn);
      Interfere(me);
      ProberCloses(me, conn);
    }

    method ProbeAndGoOn(ghost me: Pid, conn: Client, late: bool, answers: bool) returns (alive: bool, ghost at: nat)
      requires Valid() && Pc(me) == HealthProbe(conn)
      modifies this
      ensures Valid() && old(trace) <= trace
      ensures Pc(me) == if late then HealthUntrack(conn) else HealthMark(conn, alive)
      ensures |old(trace)| <= at < |trace| && Probed(trace, at, me, conn, late, answers)
    {
      at := |trace|;
      alive := Keepalive(me, conn, late, answers);
      Interfere(me);
    }

    method Keepalive(ghost me: Pid, conn: Client, late: bool, answers: bool) returns (alive: bool)
      requires Valid() && Pc(me) == HealthProbe(conn)
      modifies this`timedOut, this`procs, this`trace
      ensures Valid() && trace == old(trace) + [Now()]
      ensures alive <==> answers && conn !in shut
      ensures Pc(me) == if late then HealthUntrack(conn) else HealthMark(conn, alive)
    {
      alive := answers && conn !in shut;
      if late {
        timedOut := timedOut + {conn};
      }
      Arrive(Routine.Probe, me, if late then HealthUntrack(conn) else HealthMark(conn, alive));
    }

    method ProberDeletes(ghost me: Pid, conn: Client)
      requires Valid() && Pc(me) == HealthUntrack(conn)
      modifies this`lastUsed, this`healthStatus, this`procs, this`trace
      ensures Valid() && trace == old(trace) + [Now()]
      ensures Pc(me) == HealthShut(conn)
      ensures lastUsed == old(lastUsed) - {conn} && healthStatus == old(healthStatus) - {conn}
    {
      lastUsed, healthStatus := lastUsed - {conn}, healthStatus - {conn};
      Arrive(Routine.Probe, me, HealthShut(conn));
    }

    method ProberCloses(ghost me: Pid, conn: Client)
      requires Valid() && Pc(me) == HealthShut(conn)
      modifies this`shut, this`killed, this`procs, this`trace
      ensures Valid() && trace == old(trace) + [Now()]
      ensures conn in shut && conn in killed
      ensures Pc(me) == HealthEnd
    {
      shut, killed := shut + {conn}, killed + {conn};
      Arrive(Routine.Probe, me, HealthEnd);
    }

    method MarkChecked(ghost me: Pid, conn: Client, alive: bool)
      requires Valid() && Pc(me) == HealthMark(conn, alive)
      modifies this`healthStatus, this`procs, this`trace
      ensures Valid() && trace == old(trace) + [Now()]
      ensures Pc(me) == HealthEnd
      ensures healthStatus == if conn in lastUsed then old(healthStatus)[conn := Health(alive, now)]
                              else old(healthStatus)
    {
      if conn in lastUsed {
        healthStatus := healthStatus[conn := Health(alive, now)];
      }
      Arrive(Routine.Probe, me, HealthEnd);
    }

    method ProberEnds(ghost me: Pid)
      requires Valid() && Pc(me) == HealthEnd
      modifies this`probes, this`procs, this`trace
      ensures Valid() && trace == old(trace) + [Now()]
      ensures old(probes) > 0
      ensures Pc(me) == Idle
    {
      NowIsReachable();
      SemaphoresHold(Now());
      probes := probes - 1;
      Arrive(Routine.Probe, me, Idle);
    }
  }
}
