/** The race and the handlers together (route.go:27-162, types.go:55-66): what the race for a route
    got from the pool and dialled is given back and closed, each by the race if it was not wanted
    or by the handler if it was. */
module RouteBalance {
  import opened Common
  import opened RouteRace
  import opened RouteTheorems
  import opened RouteLease

  /** The results of selectRoute, in order. */
  function Results(log: History): seq<RouteResult> {
    if log == [] then []
    else Results(log[..|log| - 1]) + if log[|log| - 1].Selected? then [log[|log| - 1].result] else []
  }

  function BackClient(e: RouteLease.Event): multiset<RouteRace.Client> {
    if e.PutBack? then multiset{e.client} else multiset{}
  }

  function ClosedConn(e: RouteLease.Event): multiset<Conn> {
    if e.Closed? then multiset{e.conn} else multiset{}
  }

  /** The clients put back between result i and the next. */
  function PutBacks(log: History, i: nat): multiset<RouteRace.Client> {
    if log == [] then multiset{}
    else
      var n := |log| - 1;
      PutBacks(log[..n], i) + if |Results(log[..n])| == i + 1 then BackClient(log[n]) else multiset{}
  }

  /** The connections closed between result i and the next. */
  function Closings(log: History, i: nat): multiset<Conn> {
    if log == [] then multiset{}
    else
      var n := |log| - 1;
      Closings(log[..n], i) + if |Results(log[..n])| == i + 1 then ClosedConn(log[n]) else multiset{}
  }

  lemma {:induction false} NoneYet(log: History, i: nat)
    requires i >= |Results(log)|
    ensures PutBacks(log, i) == multiset{} && Closings(log, i) == multiset{}
  {
    if log != [] {
      NoneYet(log[..|log| - 1], i);
    }
  }

  predicate AllWellFormed(results: seq<RouteResult>) {
    forall i :: 0 <= i < |results| ==> WellFormed(results[i])
  }

  function DebtClients(debt: Debt): multiset<RouteRace.Client> {
    match debt
    case Nothing => multiset{}
    case Both(r) => AsMultiset(r.sshClient)
    case Client(k) => multiset{k}
  }

  function DebtConns(debt: Debt): multiset<Conn> {
    if debt.Both? then AsMultiset(debt.result.conn) else multiset{}
  }

  /** An event that selects nothing moves what it settles from the debt. */
  lemma ClientSettles(debt: Debt, e: RouteLease.Event)
    requires Settle(debt, e).Some? && !e.Selected?
    ensures DebtClients(debt) == DebtClients(Settle(debt, e).value) + BackClient(e)
  {
  }

  lemma ConnSettles(debt: Debt, e: RouteLease.Event)
    requires Settle(debt, e).Some? && !e.Selected?
    ensures DebtConns(debt) == DebtConns(Settle(debt, e).value) + ClosedConn(e)
  {
  }

  /** One that selects finds no debt, and leaves that of its result. */
  lemma SelectionOwes(debt: Debt, e: RouteLease.Event)
    requires Settle(debt, e).Some? && e.Selected? && WellFormed(e.result)
    ensures debt == Nothing && BackClient(e) == multiset{} && ClosedConn(e) == multiset{}
    ensures DebtClients(Settle(debt, e).value) == AsMultiset(e.result.sshClient)
    ensures DebtConns(Settle(debt, e).value) == AsMultiset(e.result.conn)
  {
  }

  /** What is left of result i of so many. */
  function Left(i: nat, results: nat, owed: multiset<nat>): multiset<nat> {
    if i + 1 == results then owed else multiset{}
  }

  /** The client of each result is put back, and its connection closed, before the next is asked
      for, or it is still owed. */
  ghost predicate Handed(log: History, i: nat)
    requires Owed(log).Some? && i < |Results(log)|
  {
    var r, n, debt := Results(log)[i], |Results(log)|, Owed(log).value;
    && AsMultiset(r.sshClient) == PutBacks(log, i) + Left(i, n, DebtClients(debt))
    && AsMultiset(r.conn) == Closings(log, i) + Left(i, n, DebtConns(debt))
  }

  lemma {:induction false} HandedOver(log: History, i: nat)
    requires Owed(log).Some? && AllWellFormed(Results(log)) && i < |Results(log)|
    ensures Handed(log, i)
    decreases |log|
  {
    var n := |log| - 1;
    var init, e := log[..n], log[n];
    assert log == init + [e];
    OwedNext(init, e);
    FewerWellFormed(init, e);
    if i < |Results(init)| {
      HandedOver(init, i);
    }
    HandedNext(init, e, i);
  }

  lemma HandedNext(init: History, e: RouteLease.Event, i: nat)
    requires Owed(init).Some? && Owed(init + [e]).Some? && (e.Selected? ==> WellFormed(e.result))
    requires i < |Results(init)| ==> Handed(init, i)
    requires i < |Results(init + [e])|
    ensures Handed(init + [e], i)
  {
    if e.Selected? {
      ResultsGrow(init, e);
      if i < |Results(init)| {
        StaysHanded(init, e, i);
      } else {
        NewlyOwed(init, e);
      }
    } else {
      ResultsStay(init, e);
      SettlesOn(init, e, i);
    }
  }

  lemma ResultsGrow(init: History, e: RouteLease.Event)
    requires e.Selected?
    ensures Results(init + [e]) == Results(init) + [e.result]
  {
    assert (init + [e])[..|init|] == init;
  }

  lemma ResultsStay(init: History, e: RouteLease.Event)
    requires !e.Selected?
    ensures Results(init + [e]) == Results(init)
  {
    assert (init + [e])[..|init|] == init;
  }

  lemma FewerWellFormed(init: History, e: RouteLease.Event)
    requires AllWellFormed(Results(init + [e]))
    ensures AllWellFormed(Results(init)) && (e.Selected? ==> WellFormed(e.result))
  {
    if e.Selected? {
      ResultsGrow(init, e);
      var all := Results(init + [e]);
      assert WellFormed(all[|Results(init)|]);
      assert forall i :: 0 <= i < |Results(init)| ==> Results(init)[i] == all[i];
    } else {
      ResultsStay(init, e);
    }
  }

  lemma MoreBacks(init: History, e: RouteLease.Event, i: nat)
    ensures PutBacks(init + [e], i)
            == PutBacks(init, i) + if |Results(init)| == i + 1 then BackClient(e) else multiset{}
    ensures Closings(init + [e], i)
            == Closings(init, i) + if |Results(init)| == i + 1 then ClosedConn(e) else multiset{}
  {
    assert (init + [e])[..|init|] == init;
  }

  /** The next is asked for when nothing is owed. */
  lemma StaysHanded(init: History, e: RouteLease.Event, i: nat)
    requires e.Selected? && Owed(init).Some? && Owed(init + [e]).Some? && WellFormed(e.result)
    requires i < |Results(init)| && Handed(init, i)
    ensures i < |Results(init + [e])| && Handed(init + [e], i)
  {
    OwedNext(init, e);
    ResultsGrow(init, e);
    SelectionOwes(Owed(init).value, e);
    MoreBacks(init, e, i);
  }

  lemma NewlyOwed(init: History, e: RouteLease.Event)
    requires e.Selected? && Owed(init).Some? && Owed(init + [e]).Some? && WellFormed(e.result)
    ensures |Results(init)| < |Results(init + [e])| && Handed(init + [e], |Results(init)|)
  {
    OwedNext(init, e);
    ResultsGrow(init, e);
    SelectionOwes(Owed(init).value, e);
    MoreBacks(init, e, |Results(init)|);
    NoneYet(init, |Results(init)|);
  }

  lemma SettlesOn(init: History, e: RouteLease.Event, i: nat)
    requires !e.Selected? && Owed(init).Some? && Owed(init + [e]).Some?
    requires i < |Results(init)| && Handed(init, i)
    ensures i < |Results(init + [e])| && Handed(init + [e], i)
  {
    OwedNext(init, e);
    ResultsStay(init, e);
    MoreBacks(init, e, i);
    var before, debt := Owed(init).value, Owed(init + [e]).value;
    ClientSettles(before, e);
    ConnSettles(before, e);
    LeftShrinks(PutBacks(init, i), i, |Results(init)|, DebtClients(before), DebtClients(debt), BackClient(e));
    LeftShrinks(Closings(init, i), i, |Results(init)|, DebtConns(before), DebtConns(debt), ClosedConn(e));
  }

  lemma LeftShrinks(back: multiset<nat>, i: nat, results: nat, owed: multiset<nat>, left: multiset<nat>,
                    moved: multiset<nat>)
    requires owed == left + moved
    ensures back + Left(i, results, owed)
         == (back + if results == i + 1 then moved else multiset{}) + Left(i, results, left)
  {
    Shift(back, left, moved);
  }

  lemma Shift(a: multiset<nat>, b: multiset<nat>, c: multiset<nat>)
    ensures a + (b + c) == (a + c) + b
  {
  }

  /** These races have ended with these results. */
  ghost predicate Raced(races: seq<State>, results: seq<RouteResult>) {
    && |races| == |results|
    && forall i :: 0 <= i < |races| ==> Reachable(races[i]) && Ended(races[i]) && races[i].main.result == results[i]
  }

  lemma RacesWellFormed(races: seq<State>, results: seq<RouteResult>)
    requires Raced(races, results)
    ensures AllWellFormed(results)
  {
    forall i | 0 <= i < |races| ensures WellFormed(results[i]) {
      ReturnedRouteIsWellFormed(races[i]);
    }
  }

  /** For every route that a connection asks for: each client that its race got from the pool goes
      back to it as often as it was got, and each connection that the race dialled is closed once,
      by the race or by the handler before it asks for another. */
  lemma EveryClientGoesBack(log: History, races: seq<State>, i: nat)
    requires AllSettled(log) && Raced(races, Results(log)) && i < |races|
    ensures races[i].g.gets == races[i].g.puts + PutBacks(log, i)
    ensures races[i].g.dials == races[i].g.closes + Closings(log, i)
  {
    RacesWellFormed(races, Results(log));
    HandedOver(log, i);
    RaceHandsOver(races[i], Results(log)[i]);
  }

  lemma RaceHandsOver(race: State, r: RouteResult)
    requires Reachable(race) && Ended(race) && race.main.result == r
    ensures race.g.gets == race.g.puts + AsMultiset(r.sshClient)
    ensures race.g.dials == race.g.closes + AsMultiset(r.conn)
  {
    EndedHandsOverOrReleases(race);
  }
}
