/** What the client of the HTTP port is told (http.go:125-479), and when its connection goes on,
    said without the words of the log. */
module ReplyTheorems {
  import opened Common
  import opened Streams
  import opened SessionLog
  import opened SessionTheorems
  import RouteLease
  import RouteRace

  // ---- which answer ----

  /** A response of the target goes back. */
  predicate PassesOn(c: Course) {
    (c.Plain? && c.exchange.Responded?) || (c.Upgraded? && c.upgrade.Refused?)
  }

  /** The target could not be asked, or did not answer an upgrade. */
  predicate Unavailable(c: Course) {
    c.Unroutable? || (c.Upgraded? && (c.upgrade.NotSent? || c.upgrade.NotAnswered?))
  }

  lemma UpgradeAnswer(u: Upgrading)
    ensures Answers(UpgradeTalk(u))
         == [if u.Switched? then Tunnel else if u.Refused? then Forwarded else Status(502)]
  {
    SentFirst(!u.NotSent?, UpgradeReply(u));
    if u.NotSent? {
      One(UpgradeReply(u)[0]);
    } else {
      TwoAnswers(UpgradeReply(u)[0], UpgradeReply(u)[1]);
    }
  }

  lemma OwnAnswer(c: Course)
    requires !c.ExpectRefused? && !c.ContinueLost? && WellRouted(c)
    ensures Answers(OwnEvents(c))
         == if c.HostMissing? then [Status(400)]
            else if Unavailable(c) then [Status(502)]
            else if PassesOn(c) then [Forwarded]
            else if c.Upgraded? then [Tunnel]
            else []
  {
    match c
    case HostMissing(ok) =>
      One(Answered(Status(400), ok));
    case Unroutable(ok) =>
      TwoAnswers(OwnEvents(c)[0], OwnEvents(c)[1]);
    case Plain(r, _, _, x) =>
      PlainSettles(r, x);
    case Upgraded(r, _, _, u) =>
      UpgradeTalks(u);
      UpgradeAnswer(u);
      HeldSettles(r, UpgradeTalk(u), u.Switched? && u.tunnelled, false);
  }

  /** By the course. */
  function AnswerTo(c: Course): seq<Answer> {
    if c.ExpectRefused? then [Status(417)]
    else if c.HostMissing? then [Status(400)]
    else if Unavailable(c) then [Status(502)]
    else if PassesOn(c) then [Forwarded]
    else if c.Upgraded? then [Tunnel]
    else []
  }

  lemma AnswerIs(req: HttpRequest, c: Course)
    requires WellRouted(c)
    ensures Answers(EventsOf(req, c)) == AnswerTo(c)
  {
    match c
    case ExpectRefused(ok) =>
      One(Answered(Status(417), ok));
    case ContinueLost =>
      One(Continued(false));
    case _ =>
      OwnAnswer(c);
      ContinueAnswersNothing(req, OwnEvents(c));
  }

  lemma ContinueAnswersNothing(req: HttpRequest, log: Log)
    ensures Answers(ContinueEvents(req) + log) == Answers(log)
  {
    One(Continued(true));
    AnswersConcat(ContinueEvents(req), log);
  }

  /** 417 for an expectation that is not 100-continue, 400 without a host, 502 without a route or
      when an upgrade cannot be sent or gets no response, the tunnel after a 101, else what the target
      responds; nothing at all only on a lost 100 Continue, or when a plain request could not be sent
      or got no response. */
  lemma AnswerMeans(http: Http, req: HttpRequest, f: Inflow, c: Course)
    requires Fits(http, req, f, c)
    ensures var a := Answers(EventsOf(req, c));
            && (a == [Status(417)] <==> req.expects.Other?)
            && (a == [Status(400)] <==> !req.expects.Other? && !req.hasHost && !c.ContinueLost?)
            && (a == [Status(502)] <==> Unavailable(c))
            && (a == [Tunnel] <==> c.Upgraded? && c.upgrade.Switched?)
            && (a == [Forwarded] <==> PassesOn(c))
            && (a == [] <==> c.ContinueLost? || (c.Plain? && !c.exchange.Responded?))
  {
    AnswerIs(req, c);
    Told(c);
  }

  /** No two of these are alike. */
  lemma Told(c: Course)
    ensures var a := AnswerTo(c);
            && (a == [Status(417)] <==> c.ExpectRefused?)
            && (a == [Status(400)] <==> c.HostMissing?)
            && (a == [Status(502)] <==> Unavailable(c))
            && (a == [Tunnel] <==> c.Upgraded? && c.upgrade.Switched?)
            && (a == [Forwarded] <==> PassesOn(c))
            && (a == [] <==> c.ContinueLost? || (c.Plain? && !c.exchange.Responded?))
  {
    assert [Status(417)][0] != [Status(400)][0] && [Status(417)][0] != [Status(502)][0];
    assert [Status(400)][0] != [Status(502)][0] && [Tunnel][0] != [Forwarded][0];
  }

  // ---- in which words ----

  /** What an event says to the client; `passed` is what comes from the target. */
  function Says(http: Http, e: Event, passed: Bytes): Bytes {
    match e
    case Continued(_) => http.wording(100)
    case Answered(Status(code), _) => http.wording(code)
    case Answered(_, _) => passed
    case _ => []
  }

  function Said(http: Http, log: Log, passed: Bytes): Bytes {
    if log == [] then []
    else Said(http, log[..|log| - 1], passed) + Says(http, log[|log| - 1], passed)
  }

  lemma SaidNext(http: Http, log: Log, e: Event, passed: Bytes)
    ensures Said(http, log + [e], passed) == Said(http, log, passed) + Says(http, e, passed)
  {
    assert (log + [e])[..|log|] == log;
  }

  lemma {:induction false} SaidConcat(http: Http, a: Log, b: Log, passed: Bytes)
    ensures Said(http, a + b, passed) == Said(http, a, passed) + Said(http, b, passed)
    decreases |b|
  {
    if b == [] {
      assert a + b == a;
    } else {
      var n := |b| - 1;
      SaidConcat(http, a, b[..n], passed);
      SaidNext(http, a + b[..n], b[n], passed);
      assert a + b == a + b[..n] + [b[n]];
      Assoc(Said(http, a, passed), Said(http, b[..n], passed), Says(http, b[n], passed));
    }
  }

  lemma SaidOne(http: Http, e: Event, passed: Bytes)
    ensures Said(http, [e], passed) == Says(http, e, passed)
  {
    assert [e][..0] == [];
  }

  /** Nothing in it is for the client. */
  predicate Mute(log: Log) {
    forall i :: 0 <= i < |log| ==> !log[i].Continued? && !log[i].Answered?
  }

  lemma {:induction false} MuteSaysNothing(http: Http, log: Log, passed: Bytes)
    requires Mute(log)
    ensures Said(http, log, passed) == []
  {
    if log != [] {
      MuteSaysNothing(http, log[..|log| - 1], passed);
    }
  }

  /** What says nothing may go behind. */
  lemma MuteBehind(http: Http, log: Log, more: Log, passed: Bytes)
    requires Mute(more)
    ensures Said(http, log + more, passed) == Said(http, log, passed)
  {
    MuteSaysNothing(http, more, passed);
    SaidConcat(http, log, more, passed);
  }

  /** Or before. */
  lemma MuteBefore(http: Http, first: Log, log: Log, passed: Bytes)
    requires Mute(first)
    ensures Said(http, first + log, passed) == Said(http, log, passed)
  {
    MuteSaysNothing(http, first, passed);
    SaidConcat(http, first, log, passed);
  }

  /** One event behind others that are not for the client. */
  lemma LastSays(http: Http, before: Log, e: Event, passed: Bytes)
    requires Mute(before)
    ensures Said(http, before + [e], passed) == Says(http, e, passed)
  {
    MuteBefore(http, before, [e], passed);
    SaidOne(http, e, passed);
  }

  lemma RouteIsMute(r: RouteRace.RouteResult, established: bool)
    ensures Mute(Joined(established)) && Mute(Release(r)) && Mute([Lease(RouteLease.Selected(r))])
  {
  }

  /** What a route is asked for and released with says nothing. */
  lemma HeldSays(http: Http, r: RouteRace.RouteResult, talk: Log, before: bool, after: bool, passed: Bytes)
    ensures Said(http, Held(r, talk, before, after), passed) == Said(http, talk, passed)
  {
    RouteIsMute(r, before);
    RouteIsMute(r, after);
    var ask: Log := [Lease(RouteLease.Selected(r))];
    MuteBefore(http, ask, talk, passed);
    MuteBehind(http, ask + talk, Joined(before), passed);
    MuteBehind(http, ask + talk + Joined(before), Release(r), passed);
    MuteBehind(http, ask + talk + Joined(before) + Release(r), Joined(after), passed);
  }

  /** Nor does sending the request. */
  lemma SentSays(http: Http, ok: bool, talk: Log, passed: Bytes)
    ensures Said(http, [RequestSent(ok)] + talk, passed) == Said(http, talk, passed)
  {
    MuteBefore(http, [RequestSent(ok)], talk, passed);
  }

  /** What the client gets from the target: a response with its body, its connection said to close
      exactly when the request closes or the response is ended by its connection; behind a refused
      upgrade always; and after a 101 all that follows. */
  function Passed(http: Http, req: HttpRequest, c: Course): Bytes {
    match c
    case Plain(_, down, _, Responded(interims, final, _, _)) =>
      var behind := AfterInterims(down, interims);
      http.reply(final, First(Rest(behind, final.head), final.body), req.closes || final.untilClose)
    case Upgraded(_, down, _, Refused(resp, _, _)) =>
      http.reply(resp, First(Rest(down, resp.head), resp.body), true)
    case Upgraded(_, down, _, Switched(resp, _, _, _)) =>
      http.reply(resp, [], false) + Rest(down, resp.head)
    case _ => []
  }

  lemma PlainSays(http: Http, req: HttpRequest, c: Course)
    requires c.Plain?
    ensures Said(http, OwnEvents(c), Passed(http, req, c)) == OwnText(http, req, c)
  {
    var x, passed := c.exchange, Passed(http, req, c);
    HeldSays(http, c.r, ExchangeTalk(x), false, x.Responded? && x.ok, passed);
    ExchangeSays(http, x, passed);
  }

  lemma ExchangeSays(http: Http, x: Exchange, passed: Bytes)
    ensures Said(http, ExchangeTalk(x), passed) == if x.Responded? then passed else []
  {
    SentSays(http, !x.SendFailed?, ResponseTalk(x), passed);
    ResponseSays(http, x, passed);
  }

  lemma ResponseSays(http: Http, x: Exchange, passed: Bytes)
    ensures Said(http, ResponseTalk(x), passed) == if x.Responded? then passed else []
  {
    if x.Responded? {
      InterimsAreMute(x.interims, ResponseRead(x.final));
      LastSays(http, Interims(x.interims) + [ResponseRead(x.final)], Answered(Forwarded, x.ok), passed);
    } else if x.NoResponse? {
      InterimsAreMute(x.interims, ResponseFailed);
      MuteSaysNothing(http, Interims(x.interims) + [ResponseFailed], passed);
    }
  }

  lemma InterimsAreMute(interims: seq<HttpResponse>, e: Event)
    requires !e.Continued? && !e.Answered?
    ensures Mute(Interims(interims) + [e])
  {
  }

  lemma UpgradeSays(http: Http, req: HttpRequest, c: Course)
    requires c.Upgraded?
    ensures Said(http, OwnEvents(c), Passed(http, req, c)) == OwnText(http, req, c)
  {
    var u, passed := c.upgrade, Passed(http, req, c);
    HeldSays(http, c.r, UpgradeTalk(u), u.Switched? && u.tunnelled, false, passed);
    SentSays(http, !u.NotSent?, UpgradeReply(u), passed);
    UpgradeReplySays(http, u, passed);
  }

  lemma UpgradeReplySays(http: Http, u: Upgrading, passed: Bytes)
    ensures Said(http, UpgradeReply(u), passed) == if u.NotSent? || u.NotAnswered? then http.wording(502) else passed
  {
    if u.NotSent? {
      SaidOne(http, UpgradeReply(u)[0], passed);
    } else {
      TwoEvents(http, UpgradeReply(u)[0], UpgradeReply(u)[1], passed);
    }
  }

  lemma TwoEvents(http: Http, a: Event, b: Event, passed: Bytes)
    requires !a.Continued? && !a.Answered?
    ensures Said(http, [a, b], passed) == Says(http, b, passed)
  {
    LastSays(http, [a], b, passed);
    assert [a, b] == [a] + [b];
  }

  lemma OwnSays(http: Http, req: HttpRequest, c: Course)
    requires !c.ExpectRefused? && !c.ContinueLost?
    ensures Said(http, OwnEvents(c), Passed(http, req, c)) == OwnText(http, req, c)
  {
    match c
    case HostMissing(ok) =>
      SaidOne(http, Answered(Status(400), ok), []);
    case Unroutable(ok) =>
      TwoEvents(http, OwnEvents(c)[0], OwnEvents(c)[1], []);
    case Plain(_, _, _, _) =>
      PlainSays(http, req, c);
    case Upgraded(_, _, _, _) =>
      UpgradeSays(http, req, c);
  }

  /** If nothing is cut off, the text a client gets for a request is what the events say: each answer
      of the proxy in the words for its status, and what comes from the target as it should. */
  lemma TextMeans(http: Http, req: HttpRequest, c: Course)
    requires !c.ContinueLost?
    ensures TextOf(http, req, c) == Said(http, EventsOf(req, c), Passed(http, req, c))
  {
    var passed := Passed(http, req, c);
    if c.ExpectRefused? {
      SaidOne(http, Answered(Status(417), c.ok), passed);
    } else {
      SaidOne(http, Continued(true), passed);
      OwnSays(http, req, c);
      SaidConcat(http, ContinueEvents(req), OwnEvents(c), passed);
    }
  }

  /** A session that is over by itself ends without a word, but for a head that is too large, which
      gets 431, and a CONNECT, which gets 400. */
  lemma EndingMeans(http: Http, e: Ending)
    ensures EndingText(http, e) == Said(http, EndingEvents(e), [])
    ensures Answers(EndingEvents(e))
         == if e.Oversize? then [Status(431)] else if e.Misused? then [Status(400)] else []
  {
    var events := EndingEvents(e);
    if e.Oversize? || e.Misused? {
      TwoAnswers(events[0], events[1]);
      TwoEvents(http, events[0], events[1], []);
    } else if e.Unread? {
      One(events[0]);
      SaidOne(http, events[0], []);
    }
  }

  // ---- when the connection goes on ----

  /** The response was written whole and neither side is to close after it. */
  predicate KeptAlive(t: Turn) {
    && t.course.Plain? && t.course.exchange.Responded? && t.course.exchange.ok
    && !t.req.closes && !t.course.exchange.final.untilClose
  }

  /** Every request before the last is such a one; and so is the last exactly when the session does
      not stop with it. */
  lemma GoesOnIff(http: Http, start: Inflow, turns: seq<Turn>, e: Ending, i: nat)
    requires SessionFits(http, start, turns, e) && i < |turns|
    ensures i < |turns| - 1 ==> KeptAlive(turns[i])
    ensures i == |turns| - 1 ==> (KeptAlive(turns[i]) <==> !e.Stopped?)
  {
    if i < |turns| - 1 {
      assert turns[..|turns| - 1][i] == turns[i];
    }
  }
}
