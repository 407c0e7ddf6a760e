/** What every session keeps, whatever its requests are and wherever it fails: routes are
    settled, and requests are routed and answered one by one. */
module SessionTheorems {
  import opened Common
  import opened Streams
  import opened RouteRace
  import opened RouteLease
  import opened SessionLog

  // ---- a route held ----

  lemma Concat(a: Log, b: Log)
    ensures Leases(a + b) == Leases(a) + Leases(b)
    ensures Selections(a + b) == Selections(a) + Selections(b)
    ensures Answers(a + b) == Answers(a) + Answers(b)
  {
    LeasesConcat(a, b);
    SelectionsConcat(a, b);
    AnswersConcat(a, b);
  }

  lemma Concat3(a: Log, b: Log, c: Log)
    ensures Leases(a + b + c) == Leases(a) + Leases(b) + Leases(c)
    ensures Selections(a + b + c) == Selections(a) + Selections(b) + Selections(c)
    ensures Answers(a + b + c) == Answers(a) + Answers(b) + Answers(c)
  {
    Concat(a, b);
    Concat(a + b, c);
  }

  lemma Concat5(a: Log, b: Log, c: Log, d: Log, e: Log)
    ensures Leases(a + b + c + d + e) == Leases(a) + Leases(b) + Leases(c) + Leases(d) + Leases(e)
    ensures Selections(a + b + c + d + e)
            == Selections(a) + Selections(b) + Selections(c) + Selections(d) + Selections(e)
    ensures Answers(a + b + c + d + e) == Answers(a) + Answers(b) + Answers(c) + Answers(d) + Answers(e)
  {
    Concat3(a, b, c);
    Concat3(a + b + c, d, e);
  }

  /** Events that are about no route. */
  predicate Silent(log: Log) {
    forall i :: 0 <= i < |log| ==> !log[i].Lease?
  }

  lemma {:induction false} SilentKeeps(log: Log)
    requires Silent(log)
    ensures Leases(log) == [] && Selections(log) == 0
  {
    if log != [] {
      SilentKeeps(log[..|log| - 1]);
    }
  }

  function JoinedHistory(established: bool): RouteLease.History {
    if established then [Established] else []
  }

  function ReleaseHistory(r: RouteResult): RouteLease.History
    requires Routable(r)
  {
    [Closed(r.conn.value)] + if r.sshClient.Some? then [PutBack(r.sshClient.value)] else []
  }

  lemma One(e: SessionLog.Event)
    ensures Leases([e]) == if e.Lease? then [e.e] else []
    ensures Selections([e]) == if e.Lease? && e.e.Selected? then 1 else 0
    ensures Answers([e]) == if e.Answered? then [e.answer] else []
  {
    assert [e][..0] == [];
  }

  lemma JoinedKeeps(established: bool)
    ensures Leases(Joined(established)) == JoinedHistory(established)
    ensures Selections(Joined(established)) == 0 && Answers(Joined(established)) == []
  {
    One(Lease(Established));
  }

  lemma ReleaseKeeps(r: RouteResult)
    requires Routable(r)
    ensures Leases(Release(r)) == ReleaseHistory(r)
    ensures Selections(Release(r)) == 0 && Answers(Release(r)) == []
  {
    var closing: Log := [Lease(Closed(r.conn.value))];
    One(closing[0]);
    if r.sshClient.Some? {
      var putting: Log := [Lease(PutBack(r.sshClient.value))];
      One(putting[0]);
      Concat(closing, putting);
    } else {
      assert Release(r) == closing;
    }
  }

  lemma Leases5(a: Log, b: Log, c: Log, d: Log, e: Log)
    ensures Leases(a + b + c + d + e) == Leases(a) + Leases(b) + Leases(c) + Leases(d) + Leases(e)
  {
    LeasesConcat(a, b);
    LeasesConcat(a + b, c);
    LeasesConcat(a + b + c, d);
    LeasesConcat(a + b + c + d, e);
  }

  lemma HeldLeases(r: RouteResult, talk: Log, before: bool, after: bool)
    requires Routable(r) && Silent(talk)
    ensures Leases(Held(r, talk, before, after))
         == [Selected(r)] + JoinedHistory(before) + ReleaseHistory(r) + JoinedHistory(after)
  {
    Leases5([Lease(Selected(r))], talk, Joined(before), Release(r), Joined(after));
    PartLeases(r, talk, before, after);
  }

  lemma PartLeases(r: RouteResult, talk: Log, before: bool, after: bool)
    requires Routable(r) && Silent(talk)
    ensures Leases([Lease(Selected(r))]) + Leases(talk) + Leases(Joined(before)) + Leases(Release(r))
            + Leases(Joined(after))
         == [Selected(r)] + JoinedHistory(before) + ReleaseHistory(r) + JoinedHistory(after)
  {
    One(Lease(Selected(r)));
    SilentKeeps(talk);
    JoinedKeeps(before);
    JoinedKeeps(after);
    ReleaseKeeps(r);
    assert [Selected(r)] + [] == [Selected(r)];
  }

  lemma HeldSelections(r: RouteResult, talk: Log, before: bool, after: bool)
    requires Routable(r) && Silent(talk)
    ensures Selections(Held(r, talk, before, after)) == 1
    ensures Answers(Held(r, talk, before, after)) == Answers(talk)
  {
    One(Lease(Selected(r)));
    SilentKeeps(talk);
    JoinedKeeps(before);
    JoinedKeeps(after);
    ReleaseKeeps(r);
    Concat5([Lease(Selected(r))], talk, Joined(before), Release(r), Joined(after));
  }

  lemma HistorySettles(r: RouteResult, before: bool, after: bool)
    requires Routable(r)
    ensures AllSettled([Selected(r)] + JoinedHistory(before) + ReleaseHistory(r) + JoinedHistory(after))
  {
    var h: RouteLease.History := [Selected(r)];
    OwedNext([], Selected(r));
    JoinedOwed(h, before);
    h := h + JoinedHistory(before);
    ReleaseOwed(h, r);
    JoinedOwed(h + ReleaseHistory(r), after);
  }

  lemma JoinedOwed(h: RouteLease.History, established: bool)
    requires Owed(h).Some?
    ensures Owed(h + JoinedHistory(established)) == Owed(h)
  {
    OwedNext(h, Established);
    assert h + [] == h;
  }

  lemma ReleaseOwed(h: RouteLease.History, r: RouteResult)
    requires Routable(r) && Owed(h) == Some(Both(r))
    ensures Owed(h + ReleaseHistory(r)) == Some(Nothing)
  {
    OwedNext(h, Closed(r.conn.value));
    if r.sshClient.Some? {
      OwedNext(h + [Closed(r.conn.value)], PutBack(r.sshClient.value));
      assert h + ReleaseHistory(r) == h + [Closed(r.conn.value)] + [PutBack(r.sshClient.value)];
    }
  }

  /** A route held and released is settled, and answers nothing but what is said meanwhile. */
  lemma HeldSettles(r: RouteResult, talk: Log, before: bool, after: bool)
    requires Routable(r) && Silent(talk)
    ensures Settled(Held(r, talk, before, after)) && Selections(Held(r, talk, before, after)) == 1
    ensures Answers(Held(r, talk, before, after)) == Answers(talk)
  {
    HeldLeases(r, talk, before, after);
    HeldSelections(r, talk, before, after);
    HistorySettles(r, before, after);
  }

  lemma NoRouteSettles()
    ensures Settled([Lease(Selected(NO_ROUTE))]) && Selections([Lease(Selected(NO_ROUTE))]) == 1
  {
    One(Lease(Selected(NO_ROUTE)));
    OwedNext([], Selected(NO_ROUTE));
  }

  // ---- tunnels ----

  lemma ConnectSettles(r: RouteResult, established: bool)
    requires r == NO_ROUTE || Routable(r)
    ensures Settled(ConnectEvents(r, established)) && Selections(ConnectEvents(r, established)) == 1
  {
    if r.conn.None? {
      NoRouteSettles();
    } else {
      HeldSettles(r, [], established, false);
    }
  }

  lemma HttpConnectSettles(c: HttpConnect)
    requires c.Tunnelling? ==> Routable(c.r)
    ensures Settled(HttpConnectEvents(c)) && Selections(HttpConnectEvents(c)) == if c.NoHost? then 0 else 1
    ensures |Answers(HttpConnectEvents(c))| == 1
  {
    match c
    case NoHost(ok) =>
      One(Answered(Status(400), ok));
    case NoRoute(ok) =>
      NoRouteThenAnswer(502, ok);
    case Tunnelling(r, ok, tunnelled) =>
      One(Answered(Tunnel, ok));
      HeldSettles(r, [Answered(Tunnel, ok)], tunnelled, false);
  }

  lemma NoRouteThenAnswer(code: nat, ok: bool)
    ensures Settled([Lease(Selected(NO_ROUTE)), Answered(Status(code), ok)])
    ensures Selections([Lease(Selected(NO_ROUTE)), Answered(Status(code), ok)]) == 1
    ensures Answers([Lease(Selected(NO_ROUTE)), Answered(Status(code), ok)]) == [Status(code)]
  {
    var a: Log, b: Log := [Lease(Selected(NO_ROUTE))], [Answered(Status(code), ok)];
    NoRouteSettles();
    One(a[0]);
    One(b[0]);
    Concat(a, b);
    assert a + b == [Lease(Selected(NO_ROUTE)), Answered(Status(code), ok)];
    assert Leases(a + b) == Leases(a);
  }

  // ---- UDP ----

  lemma UdpSettles(a: Association)
    ensures Settled(UdpEvents(a)) && Selections(UdpEvents(a)) == 0
  {
    if a.Associated? {
      var before: Log := [UdpTaken, Opened(Relaying), Opened(Outward)];
      var behind: Log := [Shut(Outward), Shut(Relaying), UdpReturned];
      assert UdpEvents(a) == before + [Lease(Established)] + behind;
      OneLease(before, behind);
    } else {
      SilentKeeps(UdpEvents(a));
    }
  }

  lemma OneLease(before: Log, behind: Log)
    requires Silent(before) && Silent(behind)
    ensures Settled(before + [Lease(Established)] + behind) && Selections(before + [Lease(Established)] + behind) == 0
  {
    SilentKeeps(before);
    SilentKeeps(behind);
    One(Lease(Established));
    Concat3(before, [Lease(Established)], behind);
    OwedNext([], Established);
    assert Leases(before + [Lease(Established)] + behind) == [] + [Established];
  }

  // ---- one request ----

  lemma {:induction false} InterimsAnswerNothing(interims: seq<HttpResponse>)
    ensures Answers(Interims(interims)) == []
  {
    if interims != [] {
      var n := |interims| - 1;
      InterimsAnswerNothing(interims[..n]);
      assert Interims(interims)[..n] == Interims(interims[..n]);
    }
  }

  lemma ExchangeTalks(x: Exchange)
    ensures Silent(ExchangeTalk(x))
    ensures Answers(ExchangeTalk(x)) == if x.Responded? then [Forwarded] else []
  {
    ResponseTalks(x);
    SentFirst(!x.SendFailed?, ResponseTalk(x));
  }

  lemma SentFirst(ok: bool, talk: Log)
    ensures Answers([RequestSent(ok)] + talk) == Answers(talk)
  {
    One(RequestSent(ok));
    AnswersConcat([RequestSent(ok)], talk);
  }

  lemma ResponseTalks(x: Exchange)
    ensures Silent(ResponseTalk(x)) && Answers(ResponseTalk(x)) == if x.Responded? then [Forwarded] else []
  {
    if x.NoResponse? {
      One(ResponseFailed);
      InterimsAnswerNothing(x.interims);
      AnswersConcat(Interims(x.interims), [ResponseFailed]);
    } else if x.Responded? {
      RespondedTalks(x.interims, x.final, x.ok);
    }
  }

  lemma RespondedTalks(interims: seq<HttpResponse>, final: HttpResponse, ok: bool)
    ensures Answers(Interims(interims) + [ResponseRead(final)] + [Answered(Forwarded, ok)]) == [Forwarded]
  {
    One(ResponseRead(final));
    One(Answered(Forwarded, ok));
    InterimsAnswerNothing(interims);
    Concat3(Interims(interims), [ResponseRead(final)], [Answered(Forwarded, ok)]);
  }

  lemma UpgradeTalks(u: Upgrading)
    ensures Silent(UpgradeTalk(u)) && |Answers(UpgradeTalk(u))| == 1
  {
    UpgradeReplies(u);
    SentFirst(!u.NotSent?, UpgradeReply(u));
  }

  lemma UpgradeReplies(u: Upgrading)
    ensures Silent(UpgradeReply(u)) && |Answers(UpgradeReply(u))| == 1
  {
    if u.NotSent? {
      One(UpgradeReply(u)[0]);
    } else {
      TwoAnswers(UpgradeReply(u)[0], UpgradeReply(u)[1]);
    }
  }

  lemma TwoAnswers(a: SessionLog.Event, b: SessionLog.Event)
    ensures Answers([a, b]) == Answers([a]) + Answers([b])
    ensures Answers([a]) == if a.Answered? then [a.answer] else []
    ensures Answers([b]) == if b.Answered? then [b.answer] else []
  {
    One(a);
    One(b);
    Concat([a], [b]);
    assert [a, b] == [a] + [b];
  }

  predicate WellRouted(c: Course) {
    (c.Plain? ==> Routable(c.r)) && (c.Upgraded? ==> Routable(c.r))
  }

  lemma OwnSettles(c: Course)
    requires !c.ExpectRefused? && !c.ContinueLost? && WellRouted(c)
    ensures Settled(OwnEvents(c)) && Selections(OwnEvents(c)) == if Routed(c) then 1 else 0
    ensures |Answers(OwnEvents(c))| == if c.Plain? && !c.exchange.Responded? then 0 else 1
    ensures c.Plain? && c.exchange.Responded? ==> Answers(OwnEvents(c)) == [Forwarded]
  {
    match c
    case HostMissing(ok) =>
      One(Answered(Status(400), ok));
    case Unroutable(ok) =>
      NoRouteThenAnswer(502, ok);
    case Plain(r, _, _, x) =>
      PlainSettles(r, x);
    case Upgraded(r, _, _, u) =>
      UpgradeSettles(r, u);
  }

  lemma PlainSettles(r: RouteResult, x: Exchange)
    requires Routable(r)
    ensures var events := Held(r, ExchangeTalk(x), false, x.Responded? && x.ok);
            Settled(events) && Selections(events) == 1 && Answers(events) == if x.Responded? then [Forwarded] else []
  {
    ExchangeTalks(x);
    HeldSettles(r, ExchangeTalk(x), false, x.Responded? && x.ok);
  }

  lemma UpgradeSettles(r: RouteResult, u: Upgrading)
    requires Routable(r)
    ensures var events := Held(r, UpgradeTalk(u), u.Switched? && u.tunnelled, false);
            Settled(events) && Selections(events) == 1 && |Answers(events)| == 1
  {
    UpgradeTalks(u);
    HeldSettles(r, UpgradeTalk(u), u.Switched? && u.tunnelled, false);
  }

  /** A request leaves nothing owed, is routed at most once and answered at most once: not at
      all only when its 100 Continue is lost, its target cannot be reached to the end, or what
      the target says is no response. */
  lemma CourseSettles(req: HttpRequest, c: Course)
    requires WellRouted(c)
    ensures Settled(EventsOf(req, c)) && Selections(EventsOf(req, c)) == if Routed(c) then 1 else 0
    ensures |Answers(EventsOf(req, c))| == if c.ContinueLost? || (c.Plain? && !c.exchange.Responded?) then 0 else 1
    ensures Going(req, c) ==> Answers(EventsOf(req, c)) == [Forwarded]
  {
    One(Continued(true));
    One(Continued(false));
    match c
    case ExpectRefused(ok) =>
      One(Answered(Status(417), ok));
    case ContinueLost =>
    case _ =>
      OwnSettles(c);
      Concat(ContinueEvents(req), OwnEvents(c));
      SettledConcat(ContinueEvents(req), OwnEvents(c));
  }

  // ---- sessions ----

  function RoutedTurns(turns: seq<Turn>): nat {
    if turns == [] then 0 else RoutedTurns(turns[..|turns| - 1]) + if Routed(turns[|turns| - 1].course) then 1 else 0
  }

  predicate AllWellRouted(turns: seq<Turn>) {
    forall i :: 0 <= i < |turns| ==> WellRouted(turns[i].course)
  }

  lemma TurnSettles(t: Turn)
    requires WellRouted(t.course)
    ensures Settled(TurnEvents(t)) && Selections(TurnEvents(t)) == if Routed(t.course) then 1 else 0
    ensures Answers(TurnEvents(t)) == Answers(EventsOf(t.req, t.course))
  {
    One(HeadRead(t.req));
    CourseSettles(t.req, t.course);
    Concat([HeadRead(t.req)], EventsOf(t.req, t.course));
    SettledConcat([HeadRead(t.req)], EventsOf(t.req, t.course));
  }

  lemma {:induction false} TurnsSettle(turns: seq<Turn>)
    requires AllWellRouted(turns)
    ensures Settled(TurnsEvents(turns)) && Selections(TurnsEvents(turns)) == RoutedTurns(turns)
  {
    if turns != [] {
      var n := |turns| - 1;
      TurnsSettle(turns[..n]);
      TurnSettles(turns[n]);
      Concat(TurnsEvents(turns[..n]), TurnEvents(turns[n]));
      SettledConcat(TurnsEvents(turns[..n]), TurnEvents(turns[n]));
    }
  }

  lemma EndingIsSilent(e: Ending)
    ensures Settled(EndingEvents(e)) && Selections(EndingEvents(e)) == 0
    ensures |Answers(EndingEvents(e))| == if e.Oversize? || e.Misused? then 1 else 0
  {
    var events := EndingEvents(e);
    SilentKeeps(events);
    if e.Oversize? || e.Misused? {
      TwoAnswers(events[0], events[1]);
    } else if e.Unread? {
      One(events[0]);
    }
  }

  /** Request i of a session begins where the heads and bodies of those before it end, wherever
      the targets' answers ended; so no byte belongs to two requests or to none. */
  lemma {:induction false} FramedMeans(http: Http, start: Inflow, turns: seq<Turn>, i: nat)
    requires Framed(http, start, turns) && i < |turns|
    ensures TurnFits(http, start, turns[..i], turns[i])
    decreases |turns|
  {
    var init := turns[..|turns| - 1];
    if i < |init| {
      FramedMeans(http, start, init, i);
      assert init[..i] == turns[..i] && init[i] == turns[i];
    }
  }

  lemma FitsRouted(http: Http, start: Inflow, past: seq<Turn>, t: Turn)
    requires TurnFits(http, start, past, t)
    ensures WellRouted(t.course)
  {
  }

  lemma FramedWellRouted(http: Http, start: Inflow, turns: seq<Turn>)
    requires Framed(http, start, turns)
    ensures AllWellRouted(turns)
  {
    forall i | 0 <= i < |turns| ensures WellRouted(turns[i].course) {
      FramedMeans(http, start, turns, i);
      FitsRouted(http, start, turns[..i], turns[i]);
    }
  }

  /** However long a session is and however it ends, every route is settled and one was asked
      for per request that has a host, no refused Expect and no lost 100 Continue. */
  lemma SessionSettles(http: Http, start: Inflow, turns: seq<Turn>, e: Ending)
    requires SessionFits(http, start, turns, e)
    ensures Settled(SessionEvents(turns, e)) && Selections(SessionEvents(turns, e)) == RoutedTurns(turns)
  {
    FramedWellRouted(http, start, turns);
    TurnsSettle(turns);
    EndingIsSilent(e);
    Concat(TurnsEvents(turns), EndingEvents(e));
    SettledConcat(TurnsEvents(turns), EndingEvents(e));
  }

  lemma {:induction false} GoingAnswers(turns: seq<Turn>)
    requires AllGoing(turns) && AllWellRouted(turns)
    ensures |Answers(TurnsEvents(turns))| == |turns|
    ensures forall i :: 0 <= i < |turns| ==> Answers(TurnsEvents(turns))[i] == Forwarded
  {
    if turns != [] {
      var n := |turns| - 1;
      GoingAnswers(turns[..n]);
      GoingTurnAnswers(turns[n]);
      AnswersConcat(TurnsEvents(turns[..n]), TurnEvents(turns[n]));
    }
  }

  lemma GoingTurnAnswers(t: Turn)
    requires Going(t.req, t.course) && WellRouted(t.course)
    ensures Answers(TurnEvents(t)) == [Forwarded]
  {
    TurnSettles(t);
    CourseSettles(t.req, t.course);
  }

  /** Every request but possibly the last is answered once, by its target; at most one answer
      follows, to the last request or to a head that ends the session. */
  lemma AnsweredInTurn(http: Http, start: Inflow, turns: seq<Turn>, e: Ending)
    requires SessionFits(http, start, turns, e)
    ensures var a := Answers(SessionEvents(turns, e));
            && |turns| - 1 <= |a| <= |turns| + (if e.Oversize? || e.Misused? then 1 else 0)
            && forall i :: 0 <= i < |turns| - 1 ==> a[i] == Forwarded
    ensures var a := Answers(SessionEvents(turns, e));
            !e.Stopped? ==> |turns| <= |a| && a[|turns| - 1] == Forwarded
  {
    SessionShape(http, start, turns, e);
    LastAnswers(turns);
    EndingIsSilent(e);
    AnswersConcat(TurnsEvents(turns), EndingEvents(e));
    Prolonged(Answers(TurnsEvents(turns)), Answers(EndingEvents(e)));
  }

  lemma Prolonged(a: seq<Answer>, b: seq<Answer>)
    ensures forall i :: 0 <= i < |a| ==> (a + b)[i] == a[i]
  {
  }

  lemma SessionShape(http: Http, start: Inflow, turns: seq<Turn>, e: Ending)
    requires SessionFits(http, start, turns, e)
    ensures turns != [] && AllWellRouted(turns) && AllGoing(turns[..|turns| - 1])
    ensures e.Stopped? <==> !Going(turns[|turns| - 1].req, turns[|turns| - 1].course)
  {
    FramedWellRouted(http, start, turns);
  }

  lemma LastAnswers(turns: seq<Turn>)
    requires turns != [] && AllWellRouted(turns) && AllGoing(turns[..|turns| - 1])
    ensures var a, n := Answers(TurnsEvents(turns)), |turns| - 1;
            && n <= |a| <= n + 1 && (forall i :: 0 <= i < n ==> a[i] == Forwarded)
            && (Going(turns[n].req, turns[n].course) ==> |a| == n + 1 && a[n] == Forwarded)
  {
    var n := |turns| - 1;
    var last := turns[n];
    GoingAnswers(turns[..n]);
    TurnSettles(last);
    CourseSettles(last.req, last.course);
    Concat(TurnsEvents(turns[..n]), TurnEvents(last));
  }

  // ---- whole connections ----

  predicate ProxiedOk(p: Proxied) {
    match p
    case Rejected(_, _) => true
    case Connecting(_, c) => c.Tunnelling? ==> Routable(c.r)
    case Serving(turns, _) => AllWellRouted(turns)
  }

  /** Whatever a connection to the HTTP port does, nothing is owed at its end. */
  lemma ProxiedSettles(p: Proxied)
    requires ProxiedOk(p)
    ensures Settled(ProxiedEvents(p))
  {
    match p
    case Rejected(_, _) =>
      SilentKeeps(ProxiedEvents(p));
    case Connecting(req, c) =>
      HttpConnectSettles(c);
      One(HeadRead(req));
      SettledConcat([HeadRead(req)], HttpConnectEvents(c));
    case Serving(turns, e) =>
      TurnsSettle(turns);
      EndingIsSilent(e);
      SettledConcat(TurnsEvents(turns), EndingEvents(e));
  }
}
