/** What a handler owes for each result of selectRoute: close its connection and put its SSH
    client back, once each, before it asks for another or returns (types.go:55-66,
    http.go:524-532). */
module RouteLease {
  import opened Common
  import opened RouteRace

  datatype Event =
    | Selected(result: RouteResult)
    | Closed(conn: Conn)
    | PutBack(client: Client)
    | Established

  type History = seq<Event>

  /** What is still owed. */
  datatype Debt = Nothing | Both(result: RouteResult) | Client(client: Client)

  /** One event; none where it was not due. */
  function Settle(debt: Debt, e: Event): Option<Debt> {
    match (debt, e)
    case (_, Established) => Some(debt)
    case (Nothing, Selected(r)) => Some(if r.conn.Some? then Both(r) else Nothing)
    case (Both(r), Closed(c)) =>
      if r.conn != Some(c) then None
      else if r.sshClient.Some? then Some(Client(r.sshClient.value))
      else Some(Nothing)
    case (Client(k), PutBack(j)) => if j == k then Some(Nothing) else None
    case _ => None
  }

  function Owed(log: History): Option<Debt> {
    if log == [] then Some(Nothing)
    else match Owed(log[..|log| - 1])
      case Some(debt) => Settle(debt, log[|log| - 1])
      case None => None
  }

  lemma OwedNext(log: History, e: Event)
    ensures Owed(log + [e]) == match Owed(log) case Some(debt) => Settle(debt, e) case None => None
  {
    assert (log + [e])[..|log|] == log;
  }

  /** What is settled has no part in what comes later. */
  lemma {:induction false} OwedConcat(a: History, b: History)
    requires Owed(a) == Some(Nothing)
    ensures Owed(a + b) == Owed(b)
    decreases |b|
  {
    if b == [] {
      assert a + b == a;
    } else {
      var n := |b| - 1;
      OwedConcat(a, b[..n]);
      assert a + b == a + b[..n] + [b[n]] && b == b[..n] + [b[n]];
      OwedNext(a + b[..n], b[n]);
      OwedNext(b[..n], b[n]);
    }
  }

  /** Nothing was done out of turn and nothing is owed. */
  predicate AllSettled(log: History) {
    Owed(log) == Some(Nothing)
  }

  // ---- what a settled history says ----

  /** Only Established lies between i and k, apart from the positions given. */
  ghost predicate OnlyAt(log: History, i: nat, n: nat, at: set<int>) {
    forall k :: i < k < n && k < |log| && k !in at ==> log[k].Established?
  }

  /** Of the events after a selection and before position n, exactly one closes its connection
      and, if there is a client, exactly one later puts it back. */
  ghost predicate Released(log: History, i: nat, n: nat)
    requires i < n <= |log| && log[i].Selected?
  {
    var r := log[i].result;
    if r.conn.None? then OnlyAt(log, i, n, {})
    else if r.sshClient.None? then exists c :: ClosedAt(log, i, n, c) && OnlyAt(log, i, n, {c})
    else exists c, p :: ClosedAt(log, i, n, c) && PutAt(log, i, c, n, p) && OnlyAt(log, i, n, {c, p})
  }

  ghost predicate ClosedAt(log: History, i: nat, n: nat, c: int)
    requires i < n <= |log| && log[i].Selected? && log[i].result.conn.Some?
  {
    i < c < n && log[c] == Closed(log[i].result.conn.value)
  }

  ghost predicate PutAt(log: History, i: nat, c: int, n: nat, p: int)
    requires i < n <= |log| && log[i].Selected? && log[i].result.sshClient.Some?
  {
    i <= c < p < n && log[p] == PutBack(log[i].result.sshClient.value)
  }

  /** How far the release of selection i is at n. */
  ghost predicate Progress(log: History, i: nat, n: nat)
    requires i < n <= |log| && log[i].Selected?
  {
    var r := log[i].result;
    match Owed(log[..n])
    case None => false
    case Some(Nothing) => Released(log, i, n)
    case Some(Both(q)) => q == r && r.conn.Some? && OnlyAt(log, i, n, {})
    case Some(Client(k)) =>
      r.conn.Some? && r.sshClient == Some(k) && exists c :: ClosedAt(log, i, n, c) && OnlyAt(log, i, n, {c})
  }

  lemma {:induction false} OwedSoFar(log: History, n: nat)
    requires n <= |log| && Owed(log).Some?
    ensures Owed(log[..n]).Some?
    decreases |log|
  {
    if n < |log| {
      OwedSoFar(log[..|log| - 1], n);
      assert log[..|log| - 1][..n] == log[..n];
    } else {
      assert log[..n] == log;
    }
  }

  lemma {:induction false} ReleaseProgresses(log: History, i: nat, n: nat)
    requires Owed(log).Some? && i < n <= |log| && log[i].Selected?
    requires forall k :: i < k < n ==> !log[k].Selected?
    ensures Progress(log, i, n)
    decreases n
  {
    OwedThen(log, n - 1);
    if n - 1 > i {
      ReleaseProgresses(log, i, n - 1);
      ReleaseStep(log, i, n - 1);
    } else {
      ReleaseBegins(log, i);
    }
  }

  lemma OwedThen(log: History, n: nat)
    requires Owed(log).Some? && n < |log|
    ensures Owed(log[..n]).Some? && Owed(log[..n + 1]).Some?
    ensures Owed(log[..n + 1]) == Settle(Owed(log[..n]).value, log[n])
  {
    OwedSoFar(log, n);
    OwedSoFar(log, n + 1);
    assert log[..n + 1] == log[..n] + [log[n]];
    OwedNext(log[..n], log[n]);
  }

  lemma ReleaseBegins(log: History, i: nat)
    requires i < |log| && log[i].Selected? && Owed(log[..i]).Some?
    requires Owed(log[..i + 1]).Some? && Owed(log[..i + 1]) == Settle(Owed(log[..i]).value, log[i])
    ensures Progress(log, i, i + 1)
  {
  }

  lemma ReleaseStep(log: History, i: nat, n: nat)
    requires i < n < |log| && log[i].Selected? && !log[n].Selected?
    requires Progress(log, i, n) && Owed(log[..n]).Some?
    requires Settle(Owed(log[..n]).value, log[n]).Some?
    requires Owed(log[..n + 1]) == Settle(Owed(log[..n]).value, log[n])
    ensures Progress(log, i, n + 1)
  {
    var debt := Owed(log[..n]).value;
    var r := log[i].result;
    if debt.Both? && log[n].Closed? {
      assert ClosedAt(log, i, n + 1, n);
    } else if debt.Client? {
      var c :| ClosedAt(log, i, n, c) && OnlyAt(log, i, n, {c});
      assert ClosedAt(log, i, n + 1, c);
      if log[n].PutBack? {
        assert PutAt(log, i, c, n + 1, n);
        assert OnlyAt(log, i, n + 1, {c, n});
      } else {
        assert OnlyAt(log, i, n + 1, {c});
      }
    } else if debt.Nothing? {
      ReleasedStays(log, i, n);
    }
  }

  lemma ReleasedStays(log: History, i: nat, n: nat)
    requires i < n < |log| && log[i].Selected? && Released(log, i, n) && log[n].Established?
    ensures Released(log, i, n + 1)
  {
    var r := log[i].result;
    if r.conn.Some? && r.sshClient.None? {
      var c :| ClosedAt(log, i, n, c) && OnlyAt(log, i, n, {c});
      assert ClosedAt(log, i, n + 1, c) && OnlyAt(log, i, n + 1, {c});
    } else if r.conn.Some? {
      var c, p :| ClosedAt(log, i, n, c) && PutAt(log, i, c, n, p) && OnlyAt(log, i, n, {c, p});
      assert ClosedAt(log, i, n + 1, c) && PutAt(log, i, c, n + 1, p) && OnlyAt(log, i, n + 1, {c, p});
    }
  }

  /** In a settled history every result of selectRoute is closed and its client put back
      exactly once, before the next selection or the end. */
  lemma SettledMeansReleased(log: History, i: nat, n: nat)
    requires AllSettled(log) && i < n <= |log| && log[i].Selected?
    requires forall k :: i < k < n ==> !log[k].Selected?
    requires n == |log| || log[n].Selected?
    ensures Released(log, i, n)
  {
    ReleaseProgresses(log, i, n);
    if n == |log| {
      assert log[..n] == log;
    } else {
      OwedSoFar(log, n + 1);
      assert log[..n + 1] == log[..n] + [log[n]];
      OwedNext(log[..n], log[n]);
    }
  }

  /** Nothing else is ever closed or put back: before the first selection nothing is. */
  lemma {:induction false} NothingBeforeTheFirst(log: History, n: nat)
    requires Owed(log).Some? && n <= |log| && forall k :: 0 <= k < n ==> !log[k].Selected?
    ensures Owed(log[..n]) == Some(Nothing)
    ensures forall k :: 0 <= k < n ==> log[k].Established?
  {
    if n > 0 {
      NothingBeforeTheFirst(log, n - 1);
      OwedSoFar(log, n);
      assert log[..n] == log[..n - 1] + [log[n - 1]];
      OwedNext(log[..n - 1], log[n - 1]);
    }
  }
}
