/** What a client connection does, event by event and byte by byte (socks5.go:67-160,
    http.go:125-479, udp.go:57-157).  For each way a request can go there is one sequence of
    events, one text for the client and one condition on what both sides send. */
module SessionLog {
  import opened Common
  import opened Streams
  import opened RouteRace
  import opened RouteLease
  import HeaderScanner

  const LIMIT: nat := HeaderScanner.MAX_HTTP_HEADER_BYTES

  // ---- HTTP as net/http sees it ----

  datatype Expect = NoExpect | Continue100 | Other

  /** A request head: its length, that of the body behind it, and what the handlers look at. */
  datatype HttpRequest = HttpRequest(
    head: nat, body: nat, connect: bool, hasHost: bool, expects: Expect, upgrade: bool, closes: bool)

  /** What becomes of a head: read, not read, or refused by the limit reader. */
  datatype Head = Good(req: HttpRequest) | Malformed | TooLarge

  datatype Kind = Interim | Switching | Final

  /** A response head; untilClose when an old response is ended only by its connection. */
  datatype HttpResponse = HttpResponse(kind: Kind, head: nat, body: nat, untilClose: bool)

  /** The library and the wording, which may be any functions of the bytes: how a stream begins,
      a request and its body as the target gets them, a response and its body as the client gets
      them, and the replies of the proxy itself by their status codes.  The head of a request ends
      with the first empty line. */
  datatype Http = Http(
    request: Bytes -> Option<HttpRequest>,
    response: Bytes -> Option<HttpResponse>,
    ask: (HttpRequest, Bytes) -> Bytes,
    reply: (HttpResponse, Bytes, bool) -> Bytes,
    wording: nat -> Bytes)
  {
    function Request(s: Bytes): (r: Option<HttpRequest>)
      ensures r.Some? ==> r.value.head <= |s| && HeaderScanner.FirstEmptyLine(s, 0) == Some(r.value.head)
    {
      if request(s).Some? && HeaderScanner.FirstEmptyLine(s, 0) == Some(request(s).value.head) then
        HeaderScanner.FirstEmptyLineMeans(s, 0, request(s).value.head);
        request(s)
      else None
    }

    function Response(s: Bytes): (r: Option<HttpResponse>)
      ensures r.Some? ==> 0 < r.value.head <= |s|
    {
      if response(s).Some? && !(0 < response(s).value.head <= |s|) then None else response(s)
    }
  }

  /** What is behind the first n bytes. */
  function Rest(s: Bytes, n: nat): Bytes {
    if n <= |s| then s[n..] else []
  }

  function First(s: Bytes, n: nat): Bytes {
    if n <= |s| then s[..n] else s
  }

  lemma Assoc<T>(a: seq<T>, b: seq<T>, c: seq<T>)
    ensures a + b + c == a + (b + c)
  {
  }

  // ---- events ----

  /** What the client gets for a request. */
  datatype Answer =
    | Tunnel         // 200 Connection Established, or 101
    | Forwarded      // the response of the target
    | Status(code: nat)

  datatype UdpSocket = Relaying | Outward

  datatype Event =
    | Lease(e: RouteLease.Event)
    | HeadRead(req: HttpRequest)
    | HeadFailed(tooLarge: bool)
    | Continued(ok: bool)               // 100 Continue to the client
    | RequestSent(ok: bool)             // the request to the target
    | ResponseRead(resp: HttpResponse)
    | ResponseFailed
    | Answered(answer: Answer, ok: bool)
    | UdpTaken                          // a place among the UDP associations
    | UdpReturned
    | Opened(socket: UdpSocket)
    | Shut(socket: UdpSocket)

  type Log = seq<Event>

  // ---- the routes and the answers in a log ----

  function Leases(log: Log): RouteLease.History {
    if log == [] then []
    else Leases(log[..|log| - 1]) + if log[|log| - 1].Lease? then [log[|log| - 1].e] else []
  }

  lemma {:induction false} LeasesConcat(a: Log, b: Log)
    ensures Leases(a + b) == Leases(a) + Leases(b)
    decreases |b|
  {
    if b == [] {
      assert a + b == a;
    } else {
      var n := |b| - 1;
      LeasesConcat(a, b[..n]);
      assert (a + b)[..|a + b| - 1] == a + b[..n];
    }
  }

  /** A log in which every route is settled. */
  predicate Settled(log: Log) {
    AllSettled(Leases(log))
  }

  lemma SettledConcat(a: Log, b: Log)
    requires Settled(a) && Settled(b)
    ensures Settled(a + b)
  {
    LeasesConcat(a, b);
    OwedConcat(Leases(a), Leases(b));
  }

  /** How often a route was asked for. */
  function Selections(log: Log): nat {
    if log == [] then 0
    else Selections(log[..|log| - 1]) + if log[|log| - 1].Lease? && log[|log| - 1].e.Selected? then 1 else 0
  }

  lemma {:induction false} SelectionsConcat(a: Log, b: Log)
    ensures Selections(a + b) == Selections(a) + Selections(b)
    decreases |b|
  {
    if b == [] {
      assert a + b == a;
    } else {
      var n := |b| - 1;
      SelectionsConcat(a, b[..n]);
      assert (a + b)[..|a + b| - 1] == a + b[..n];
    }
  }

  function Answers(log: Log): seq<Answer> {
    if log == [] then []
    else Answers(log[..|log| - 1]) + if log[|log| - 1].Answered? then [log[|log| - 1].answer] else []
  }

  lemma {:induction false} AnswersConcat(a: Log, b: Log)
    ensures Answers(a + b) == Answers(a) + Answers(b)
    decreases |b|
  {
    if b == [] {
      assert a + b == a;
    } else {
      var n := |b| - 1;
      AnswersConcat(a, b[..n]);
      assert (a + b)[..|a + b| - 1] == a + b[..n];
    }
  }

  // ---- a route and what is done with it ----

  /** closeRouteResult: nothing for what is not there. */
  function Release(r: RouteResult): Log {
    (if r.conn.Some? then [Lease(Closed(r.conn.value))] else [])
      + if r.sshClient.Some? then [Lease(PutBack(r.sshClient.value))] else []
  }

  function Joined(established: bool): Log {
    if established then [Lease(Established)] else []
  }

  /** A route is asked for, used in some way, and released; established is called before the
      release, after it, or not at all. */
  function Held(r: RouteResult, talk: Log, before: bool, after: bool): Log {
    [Lease(Selected(r))] + talk + Joined(before) + Release(r) + Joined(after)
  }

  /** SOCKS5 CONNECT. */
  function ConnectEvents(r: RouteResult, tunnelled: bool): Log {
    if r.conn.None? then [Lease(Selected(r))] else Held(r, [], tunnelled, false)
  }

  // ---- HTTP CONNECT, http.go:188-244 ----

  datatype HttpConnect =
    | NoHost(ok: bool)
    | NoRoute(ok: bool)
    | Tunnelling(r: RouteResult, ok: bool, tunnelled: bool)

  function HttpConnectEvents(c: HttpConnect): Log {
    match c
    case NoHost(ok) => [Answered(Status(400), ok)]
    case NoRoute(ok) => [Lease(Selected(NO_ROUTE)), Answered(Status(502), ok)]
    case Tunnelling(r, ok, tunnelled) => Held(r, [Answered(Tunnel, ok)], tunnelled, false)
  }

  // ---- one HTTP request, http.go:256-365 ----

  /** How a plain request goes once its route is there.  `ok` is whether the answer could be
      written, `lost` whether a connection broke. */
  datatype Exchange =
    | SendFailed(lost: bool)
    | NoResponse(interims: seq<HttpResponse>, lost: bool)
    | Responded(interims: seq<HttpResponse>, final: HttpResponse, ok: bool, lost: bool)

  datatype Upgrading =
    | NotSent(ok: bool, lost: bool)
    | NotAnswered(ok: bool, lost: bool)
    | Refused(resp: HttpResponse, ok: bool, lost: bool)
    | Switched(resp: HttpResponse, ok: bool, tunnelled: bool, lost: bool)

  /** How a request goes; `down` is what the target sends and `up` what it gets. */
  datatype Course =
    | ExpectRefused(ok: bool)
    | ContinueLost
    | HostMissing(ok: bool)
    | Unroutable(ok: bool)
    | Plain(r: RouteResult, down: Bytes, up: Bytes, exchange: Exchange)
    | Upgraded(r: RouteResult, down: Bytes, up: Bytes, upgrade: Upgrading)

  /** What the target sends behind its 1xx responses. */
  function AfterInterims(down: Bytes, interims: seq<HttpResponse>): Bytes {
    if interims == [] then down
    else Rest(AfterInterims(down, interims[..|interims| - 1]), interims[|interims| - 1].head)
  }

  /** The target's stream begins with these 1xx responses. */
  predicate Skipped(http: Http, down: Bytes, interims: seq<HttpResponse>) {
    interims == [] ||
    var n := |interims| - 1;
    && Skipped(http, down, interims[..n])
    && !interims[n].kind.Final? && http.Response(AfterInterims(down, interims[..n])) == Some(interims[n])
  }

  /** The whole response is there. */
  predicate Whole(s: Bytes, resp: HttpResponse) {
    resp.head + resp.body <= |s|
  }

  /** What the target makes of a request that reached it. */
  predicate Heard(http: Http, down: Bytes, x: Exchange)
    requires !x.SendFailed?
  {
    var behind := AfterInterims(down, x.interims);
    && Skipped(http, down, x.interims)
    && match x
       case NoResponse(_, lost) => lost || http.Response(behind).None?
       case Responded(_, final, ok, lost) =>
         && http.Response(behind) == Some(final) && final.kind.Final?
         && (if ok then Whole(behind, final) else lost || !Whole(behind, final))
  }

  /** A request is sent whole only if its body is there and is not refused by the limit reader. */
  ghost predicate Sendable(req: HttpRequest, f: Inflow) {
    req.body <= |f.pending| && !MustRefuse(f, req.body, LIMIT)
  }

  /** Why it may not be. */
  ghost predicate Unsendable(req: HttpRequest, f: Inflow) {
    |f.pending| < req.body || MayRefuse(f, req.body, LIMIT)
  }

  /** The course that a plain request takes, when f follows its head: nothing fails without a
      reason in what either side sends or in the limit reader, unless a connection breaks. */
  ghost predicate Exchanged(http: Http, req: HttpRequest, f: Inflow, down: Bytes, x: Exchange) {
    if x.SendFailed? then x.lost || Unsendable(req, f)
    else Sendable(req, f) && Heard(http, down, x)
  }

  predicate UpgradeHeard(http: Http, down: Bytes, u: Upgrading)
    requires !u.NotSent?
  {
    match u
    case NotAnswered(_, lost) => lost || http.Response(down).None?
    case Refused(resp, ok, lost) =>
      && http.Response(down) == Some(resp) && !resp.kind.Switching?
      && (if ok then Whole(down, resp) else lost || !Whole(down, resp))
    case Switched(resp, ok, tunnelled, lost) =>
      && http.Response(down) == Some(resp) && resp.kind.Switching?
      && (if tunnelled then ok else lost)
  }

  ghost predicate Upgrades(http: Http, req: HttpRequest, f: Inflow, down: Bytes, u: Upgrading) {
    if u.NotSent? then u.lost || Unsendable(req, f)
    else Sendable(req, f) && UpgradeHeard(http, down, u)
  }

  /** What the target gets: the request with its whole body, once. */
  predicate Asked(http: Http, req: HttpRequest, s: Bytes, up: Bytes, x: Exchange) {
    x.SendFailed? || up == http.ask(req, First(s, req.body))
  }

  /** After a switch also what the client sends from there on. */
  predicate UpgradeAsked(http: Http, req: HttpRequest, s: Bytes, up: Bytes, u: Upgrading) {
    var sent := http.ask(req, First(s, req.body));
    match u
    case NotSent(_, _) => true
    case Switched(_, _, _, lost) => sent <= up <= sent + Rest(s, req.body) && (lost || up == sent + Rest(s, req.body))
    case _ => up == sent
  }

  /** The courses a request can take, when f follows its head. */
  ghost predicate Fits(http: Http, req: HttpRequest, f: Inflow, c: Course) {
    match c
    case ExpectRefused(_) => req.expects.Other?
    case ContinueLost => req.expects.Continue100?
    case HostMissing(_) => !req.expects.Other? && !req.hasHost
    case Unroutable(_) => !req.expects.Other? && req.hasHost
    case Plain(r, down, up, x) =>
      && !req.expects.Other? && req.hasHost && !req.upgrade && Routable(r)
      && Exchanged(http, req, f, down, x) && Asked(http, req, f.pending, up, x)
    case Upgraded(r, down, up, u) =>
      && !req.expects.Other? && req.hasHost && req.upgrade && Routable(r)
      && Upgrades(http, req, f, down, u) && UpgradeAsked(http, req, f.pending, up, u)
  }

  /** The response says that the connection to the client will close. */
  predicate Closes(req: HttpRequest, resp: HttpResponse) {
    req.closes || resp.untilClose
  }

  /** Another request may follow. */
  predicate Going(req: HttpRequest, c: Course) {
    c.Plain? && c.exchange.Responded? && c.exchange.ok && !Closes(req, c.exchange.final)
  }

  function Interims(interims: seq<HttpResponse>): Log {
    seq(|interims|, i requires 0 <= i < |interims| => ResponseRead(interims[i]))
  }

  function ReadEvent(resp: Option<HttpResponse>): Event {
    if resp.Some? then ResponseRead(resp.value) else ResponseFailed
  }

  /** One more 1xx response. */
  lemma InterimNext(http: Http, down: Bytes, interims: seq<HttpResponse>, p: HttpResponse)
    requires Skipped(http, down, interims) && !p.kind.Final?
    requires http.Response(AfterInterims(down, interims)) == Some(p)
    ensures Skipped(http, down, interims + [p])
    ensures AfterInterims(down, interims + [p]) == Rest(AfterInterims(down, interims), p.head)
    ensures Interims(interims + [p]) == Interims(interims) + [ResponseRead(p)]
  {
    assert (interims + [p])[..|interims|] == interims;
  }

  function ExchangeTalk(x: Exchange): Log {
    [RequestSent(!x.SendFailed?)] + ResponseTalk(x)
  }

  function ResponseTalk(x: Exchange): Log {
    match x
    case SendFailed(_) => []
    case NoResponse(interims, _) => Interims(interims) + [ResponseFailed]
    case Responded(interims, final, ok, _) => Interims(interims) + [ResponseRead(final)] + [Answered(Forwarded, ok)]
  }

  lemma ExchangeAdds(log: Log, x: Exchange)
    ensures log + [RequestSent(!x.SendFailed?)] + ResponseTalk(x) == log + ExchangeTalk(x)
  {
    Assoc(log, [RequestSent(!x.SendFailed?)], ResponseTalk(x));
  }

  function UpgradeTalk(u: Upgrading): Log {
    [RequestSent(!u.NotSent?)] + UpgradeReply(u)
  }

  function UpgradeReply(u: Upgrading): Log {
    match u
    case NotSent(ok, _) => [Answered(Status(502), ok)]
    case NotAnswered(ok, _) => [ResponseFailed, Answered(Status(502), ok)]
    case Refused(resp, ok, _) => [ResponseRead(resp), Answered(Forwarded, ok)]
    case Switched(resp, ok, _, _) => [ResponseRead(resp), Answered(Tunnel, ok)]
  }

  lemma UpgradeAdds(log: Log, u: Upgrading)
    ensures log + [RequestSent(!u.NotSent?)] + UpgradeReply(u) == log + UpgradeTalk(u)
  {
    Assoc(log, [RequestSent(!u.NotSent?)], UpgradeReply(u));
  }

  function ContinueEvents(req: HttpRequest): Log {
    if req.expects.Continue100? then [Continued(true)] else []
  }

  /** The events after Expect is dealt with; with a host a route is asked for. */
  function OwnEvents(c: Course): Log
    requires !c.ExpectRefused? && !c.ContinueLost?
  {
    match c
    case HostMissing(ok) => [Answered(Status(400), ok)]
    case Unroutable(ok) => [Lease(Selected(NO_ROUTE)), Answered(Status(502), ok)]
    case Plain(r, _, _, x) => Held(r, ExchangeTalk(x), false, x.Responded? && x.ok)
    case Upgraded(r, _, _, u) => Held(r, UpgradeTalk(u), u.Switched? && u.tunnelled, false)
  }

  /** The events of a course, in order and no others. */
  function EventsOf(req: HttpRequest, c: Course): Log {
    match c
    case ExpectRefused(ok) => [Answered(Status(417), ok)]
    case ContinueLost => [Continued(false)]
    case _ => ContinueEvents(req) + OwnEvents(c)
  }

  /** A request is routed unless its Expect is refused, its 100 Continue is lost or it has no
      host. */
  predicate Routed(c: Course) {
    c.Unroutable? || c.Plain? || c.Upgraded?
  }

  // ---- what the client gets ----

  function BodyAt(s: Bytes, resp: HttpResponse): Bytes {
    First(Rest(s, resp.head), resp.body)
  }

  function UpgradeText(http: Http, down: Bytes, u: Upgrading): Bytes {
    match u
    case Refused(resp, _, _) => http.reply(resp, BodyAt(down, resp), true)
    case Switched(resp, _, _, _) => http.reply(resp, [], false) + Rest(down, resp.head)
    case _ => http.wording(502)
  }

  function ExchangeText(http: Http, req: HttpRequest, down: Bytes, x: Exchange): Bytes {
    if x.Responded? then http.reply(x.final, BodyAt(AfterInterims(down, x.interims), x.final), Closes(req, x.final))
    else []
  }

  function ContinueText(http: Http, req: HttpRequest): Bytes {
    if req.expects.Continue100? then http.wording(100) else []
  }

  function OwnText(http: Http, req: HttpRequest, c: Course): Bytes
    requires !c.ExpectRefused? && !c.ContinueLost?
  {
    match c
    case HostMissing(_) => http.wording(400)
    case Unroutable(_) => http.wording(502)
    case Plain(_, down, _, x) => ExchangeText(http, req, down, x)
    case Upgraded(_, down, _, u) => UpgradeText(http, down, u)
  }

  function TextOf(http: Http, req: HttpRequest, c: Course): Bytes {
    match c
    case ExpectRefused(_) => http.wording(417)
    case ContinueLost => []
    case _ => ContinueText(http, req) + OwnText(http, req, c)
  }

  /** No response to the client was cut off. */
  predicate Complete(c: Course) {
    && (c.Plain? && c.exchange.Responded? ==> c.exchange.ok)
    && (c.Upgraded? && c.upgrade.Refused? ==> c.upgrade.ok)
    && (c.Upgraded? && c.upgrade.Switched? ==> !c.upgrade.lost)
  }

  /** A reply of the proxy itself did not reach the client. */
  predicate Undelivered(c: Course) {
    match c
    case ExpectRefused(ok) => !ok
    case ContinueLost => true
    case HostMissing(ok) => !ok
    case Unroutable(ok) => !ok
    case Plain(_, _, _, _) => false
    case Upgraded(_, _, _, u) => (u.NotSent? || u.NotAnswered?) && !u.ok
  }

  /** A broken connection had a part in it. */
  predicate Lost(c: Course) {
    (c.Plain? && c.exchange.lost) || (c.Upgraded? && c.upgrade.lost)
  }

  /** What is seen of a session at some moment: its log, what is still to come from the client,
      what it got, and whether its connection broke. */
  datatype View = View(log: Log, flow: Inflow, written: Bytes, broken: bool)

  /** Behind a body that was read, an error may wait that was there before, or that came with the
      last of its bytes. */
  ghost predicate Leaves(before: Inflow, waiting: bool) {
    waiting ==> before.waiting || HeaderScanner.Oversize(before.counted, LIMIT)
  }

  ghost predicate BodyTaken(req: HttpRequest, w: View, v: View) {
    v.flow.pending == Rest(w.flow.pending, req.body) && v.broken == w.broken && Leaves(w.flow, v.flow.waiting)
  }

  /** One request was served from w, where its head had been read, to v. */
  ghost predicate Took(http: Http, req: HttpRequest, c: Course, w: View, v: View) {
    && Fits(http, req, w.flow, c)
    && v.log == w.log + EventsOf(req, c)
    && (!v.broken && Complete(c) ==> v.written == w.written + TextOf(http, req, c))
    && (Going(req, c) ==> BodyTaken(req, w, v))
    && (w.broken || Undelivered(c) ==> v.broken)
  }

  /** The same, from where Expect had been dealt with. */
  ghost predicate TookOwn(http: Http, req: HttpRequest, c: Course, w: View, v: View) {
    && !c.ExpectRefused? && !c.ContinueLost? && Fits(http, req, w.flow, c)
    && v.log == w.log + OwnEvents(c)
    && (!v.broken && Complete(c) ==> v.written == w.written + OwnText(http, req, c))
    && (Going(req, c) ==> BodyTaken(req, w, v))
    && (w.broken || Undelivered(c) ==> v.broken)
  }

  lemma EventsAssoc(req: HttpRequest, c: Course, log: Log)
    requires !c.ExpectRefused? && !c.ContinueLost?
    ensures log + ContinueEvents(req) + OwnEvents(c) == log + EventsOf(req, c)
  {
    Assoc(log, ContinueEvents(req), OwnEvents(c));
  }

  lemma TextAssoc(http: Http, req: HttpRequest, c: Course, text: Bytes)
    requires !c.ExpectRefused? && !c.ContinueLost?
    ensures text + ContinueText(http, req) + OwnText(http, req, c) == text + TextOf(http, req, c)
  {
    Assoc(text, ContinueText(http, req), OwnText(http, req, c));
  }

  lemma ContinueThenOwn(http: Http, req: HttpRequest, c: Course, w: View, m: View, v: View)
    requires m == View(w.log + ContinueEvents(req), w.flow, w.written + ContinueText(http, req), w.broken)
    requires TookOwn(http, req, c, m, v)
    ensures Took(http, req, c, w, v)
  {
    EventsAssoc(req, c, w.log);
    TextAssoc(http, req, c, w.written);
  }

  lemma HeldAdds(log: Log, r: RouteResult, talk: Log, before: bool, after: bool)
    ensures log + [Lease(Selected(r))] + talk + Joined(before) + Release(r) + Joined(after)
         == log + Held(r, talk, before, after)
  {
  }

  /** A tunnel has nothing behind its release. */
  lemma TunnelAdds(log: Log, r: RouteResult, talk: Log, established: bool)
    ensures log + [Lease(Selected(r))] + talk + Joined(established) + Release(r)
            == log + Held(r, talk, established, false)
  {
    HeldAdds(log, r, talk, established, false);
    NothingBehind(log + [Lease(Selected(r))] + talk + Joined(established) + Release(r));
  }

  lemma NothingBefore(log: Log)
    ensures [] + log == log
  {
  }

  lemma NothingBehind(log: Log)
    ensures log + [] == log
  {
  }

  lemma PlainTook(http: Http, req: HttpRequest, r: RouteResult, down: Bytes, up: Bytes, x: Exchange, w: View, v: View)
    requires !req.expects.Other? && req.hasHost && !req.upgrade && Routable(r)
    requires Exchanged(http, req, w.flow, down, x) && Asked(http, req, w.flow.pending, up, x)
    requires v.log == w.log + [Lease(Selected(r))] + ExchangeTalk(x) + Release(r) + Joined(x.Responded? && x.ok)
    requires !v.broken && (x.Responded? ==> x.ok) ==> v.written == w.written + ExchangeText(http, req, down, x)
    requires x.Responded? && x.ok && !Closes(req, x.final) ==> BodyTaken(req, w, v)
    requires w.broken ==> v.broken
    ensures TookOwn(http, req, Plain(r, down, up, x), w, v)
  {
    HeldAdds(w.log, r, ExchangeTalk(x), false, x.Responded? && x.ok);
    NothingBehind(w.log + [Lease(Selected(r))] + ExchangeTalk(x));
  }

  lemma UpgradeTook(http: Http, req: HttpRequest, r: RouteResult, down: Bytes, up: Bytes, u: Upgrading,
                    w: View, v: View)
    requires !req.expects.Other? && req.hasHost && req.upgrade && Routable(r)
    requires Upgrades(http, req, w.flow, down, u) && UpgradeAsked(http, req, w.flow.pending, up, u)
    requires v.log == w.log + [Lease(Selected(r))] + UpgradeTalk(u) + Joined(u.Switched? && u.tunnelled) + Release(r)
    requires !v.broken && (u.Refused? ==> u.ok) && (u.Switched? ==> !u.lost) ==>
               v.written == w.written + UpgradeText(http, down, u)
    requires w.broken || ((u.NotSent? || u.NotAnswered?) && !u.ok) ==> v.broken
    ensures TookOwn(http, req, Upgraded(r, down, up, u), w, v)
  {
    HeldAdds(w.log, r, UpgradeTalk(u), u.Switched? && u.tunnelled, false);
    NothingBehind(v.log);
  }

  // ---- a session of such requests ----

  /** A request, what was before the reader when the limit reader began to count for it, and how
      it went. */
  datatype Turn = Turn(req: HttpRequest, begun: Inflow, course: Course)

  /** Why it ends: the last request does not let another follow; the next head cannot be read or
      is too large; the next request is a CONNECT; or it was watched no longer. */
  datatype Ending =
    | Stopped
    | Unread(begun: Inflow, lost: bool)
    | Oversize(begun: Inflow, ok: bool)
    | Misused(begun: Inflow, req: HttpRequest, ok: bool)
    | Watched

  function TurnEvents(t: Turn): Log {
    [HeadRead(t.req)] + EventsOf(t.req, t.course)
  }

  function TurnsEvents(turns: seq<Turn>): Log {
    if turns == [] then [] else TurnsEvents(turns[..|turns| - 1]) + TurnEvents(turns[|turns| - 1])
  }

  function EndingEvents(e: Ending): Log {
    match e
    case Stopped => []
    case Unread(_, _) => [HeadFailed(false)]
    case Oversize(_, ok) => [HeadFailed(true), Answered(Status(431), ok)]
    case Misused(_, req, ok) => [HeadRead(req), Answered(Status(400), ok)]
    case Watched => []
  }

  function SessionEvents(turns: seq<Turn>, e: Ending): Log {
    TurnsEvents(turns) + EndingEvents(e)
  }

  /** What the client sends after these requests: each head and body is taken, nothing else. */
  function After(s: Bytes, turns: seq<Turn>): Bytes {
    if turns == [] then s
    else
      var req := turns[|turns| - 1].req;
      Rest(After(s, turns[..|turns| - 1]), req.head + req.body)
  }

  /** How many bytes were read ahead. */
  function ReadAhead(f: Inflow): int {
    |f.pending| - |f.counted|
  }

  /** The counted bytes are those behind the read-ahead ones. */
  predicate Counts(f: Inflow) {
    ReadAhead(f) >= 0 && f.counted == f.pending[ReadAhead(f)..]
  }

  /** A head is read only if what is counted of it is within the limit, when the scanner sees its
      end. */
  predicate HeadFits(f: Inflow, h: nat) {
    HeaderScanner.EndsAt(f.counted, h - ReadAhead(f)) ==> h - ReadAhead(f) <= LIMIT
  }

  function BehindHead(f: Inflow, h: nat): Inflow {
    f.(pending := Rest(f.pending, h))
  }

  ghost predicate TurnAt(http: Http, s: Bytes, t: Turn) {
    && t.begun.pending == s && Counts(t.begun) && http.Request(s) == Some(t.req) && HeadFits(t.begun, t.req.head)
    && Fits(http, t.req, BehindHead(t.begun, t.req.head), t.course)
  }

  /** An error waits behind these requests only if one did from the start, or the last of them left
      it. */
  ghost predicate MayWait(start: Inflow, past: seq<Turn>, waiting: bool) {
    if past == [] then waiting ==> start.waiting else Leaves(past[|past| - 1].begun, waiting)
  }

  /** Each request is read where the one before it ended, and takes a course that fits it. */
  ghost predicate Framed(http: Http, start: Inflow, turns: seq<Turn>) {
    turns == [] ||
    var n := |turns| - 1;
    Framed(http, start, turns[..n]) && TurnFits(http, start, turns[..n], turns[n])
  }

  ghost predicate TurnFits(http: Http, start: Inflow, past: seq<Turn>, t: Turn) {
    TurnAt(http, After(start.pending, past), t) && MayWait(start, past, t.begun.waiting)
  }

  /** Requests that let another follow, and none but the first a CONNECT. */
  predicate AllGoing(turns: seq<Turn>) {
    && (forall i :: 0 <= i < |turns| ==> Going(turns[i].req, turns[i].course))
    && (forall i :: 1 <= i < |turns| ==> !turns[i].req.connect)
  }

  /** A session that starts with this before it: all requests but the last let another follow, and
      so does the last unless the session stops with it. */
  ghost predicate SessionFits(http: Http, start: Inflow, turns: seq<Turn>, e: Ending) {
    && turns != [] && Framed(http, start, turns)
    && AllGoing(turns[..|turns| - 1]) && (|turns| > 1 ==> !turns[|turns| - 1].req.connect)
    && (e.Stopped? <==> !Going(turns[|turns| - 1].req, turns[|turns| - 1].course))
    && EndsAt(http, start, turns, e)
  }

  ghost predicate EndsAt(http: Http, start: Inflow, turns: seq<Turn>, e: Ending) {
    && (e.Unread? || e.Oversize? || e.Misused? ==>
          && e.begun.pending == After(start.pending, turns) && Counts(e.begun)
          && MayWait(start, turns, e.begun.waiting))
    && HeadEnds(http, e)
  }

  ghost predicate HeadEnds(http: Http, e: Ending) {
    match e
    case Unread(f, lost) => lost || http.Request(f.pending).None? || f.waiting
    case Oversize(f, _) => HeaderScanner.Oversize(f.counted, LIMIT)
    case Misused(f, req, _) => http.Request(f.pending) == Some(req) && req.connect && HeadFits(f, req.head)
    case _ => true
  }

  function TurnsText(http: Http, turns: seq<Turn>): Bytes {
    if turns == [] then []
    else TurnsText(http, turns[..|turns| - 1]) + TextOf(http, turns[|turns| - 1].req, turns[|turns| - 1].course)
  }

  function EndingText(http: Http, e: Ending): Bytes {
    match e
    case Oversize(_, _) => http.wording(431)
    case Misused(_, _, _) => http.wording(400)
    case _ => []
  }

  function SessionText(http: Http, turns: seq<Turn>, e: Ending): Bytes {
    TurnsText(http, turns) + EndingText(http, e)
  }

  /** One more request, read where those before it end. */
  lemma NextTurn(http: Http, start: Inflow, turns: seq<Turn>, t: Turn)
    requires Framed(http, start, turns) && TurnAt(http, After(start.pending, turns), t)
    requires MayWait(start, turns, t.begun.waiting)
    ensures Framed(http, start, turns + [t])
    ensures After(start.pending, turns + [t]) == Rest(After(start.pending, turns), t.req.head + t.req.body)
  {
    assert (turns + [t])[..|turns|] == turns;
  }

  /** The session goes on after it or stops with it. */
  lemma GoesOnOrStops(http: Http, start: Inflow, turns: seq<Turn>, t: Turn)
    requires Framed(http, start, turns + [t])
    requires AllGoing(turns) && (turns != [] ==> !t.req.connect)
    ensures if Going(t.req, t.course) then AllGoing(turns + [t]) else SessionFits(http, start, turns + [t], Stopped)
  {
    assert (turns + [t])[..|turns|] == turns;
  }

  /** Why a session may end that could go on. */
  lemma EndsGoing(http: Http, start: Inflow, turns: seq<Turn>, e: Ending)
    requires turns != [] && Framed(http, start, turns) && AllGoing(turns)
    requires EndsAt(http, start, turns, e) && !e.Stopped?
    ensures SessionFits(http, start, turns, e) && Complete(turns[|turns| - 1].course)
    ensures !Undelivered(turns[|turns| - 1].course)
  {
    assert Going(turns[|turns| - 1].req, turns[|turns| - 1].course);
  }

  /** The session could not be read on or the last reply was lost. */
  predicate Cut(e: Ending) {
    match e
    case Unread(_, lost) => lost
    case Oversize(_, ok) => !ok
    case Misused(_, _, ok) => !ok
    case _ => false
  }

  /** These requests, all answered; the next one begins where the last ended. */
  ghost predicate OpenAt(http: Http, start: View, served: seq<Turn>, v: View) {
    Placed(http, start.flow, served, v.flow) && Written(http, start, served, v)
  }

  ghost predicate Placed(http: Http, start: Inflow, served: seq<Turn>, f: Inflow) {
    && Framed(http, start, served) && AllGoing(served)
    && f.pending == After(start.pending, served) && MayWait(start, served, f.waiting)
  }

  ghost predicate Written(http: Http, start: View, served: seq<Turn>, v: View) {
    && v.log == start.log + TurnsEvents(served)
    && (!v.broken ==> v.written == start.written + TurnsText(http, served))
  }

  /** These requests and this ending. */
  ghost predicate OverAt(http: Http, start: View, served: seq<Turn>, e: Ending, v: View) {
    && SessionFits(http, start.flow, served, e) && v.log == start.log + SessionEvents(served, e)
    && (!v.broken && Complete(served[|served| - 1].course) ==>
          v.written == start.written + SessionText(http, served, e))
    && (Undelivered(served[|served| - 1].course) || Cut(e) ==> v.broken)
  }

  lemma EventsAdd(past: seq<Turn>, t: Turn, log: Log)
    ensures log + TurnsEvents(past) + [HeadRead(t.req)] + EventsOf(t.req, t.course) == log + TurnsEvents(past + [t])
  {
    assert (past + [t])[..|past|] == past;
    Assoc(log + TurnsEvents(past), [HeadRead(t.req)], EventsOf(t.req, t.course));
    Assoc(log, TurnsEvents(past), TurnEvents(t));
  }

  lemma TextAdds(http: Http, past: seq<Turn>, t: Turn, text: Bytes)
    ensures text + TurnsText(http, past) + TextOf(http, t.req, t.course) == text + TurnsText(http, past + [t])
  {
    assert (past + [t])[..|past|] == past;
    Assoc(text, TurnsText(http, past), TextOf(http, t.req, t.course));
  }

  /** Where the head of the next request has been read; an error that waited may be gone. */
  predicate HeadTaken(http: Http, req: HttpRequest, u: View, w: View) {
    && Counts(u.flow) && http.Request(u.flow.pending) == Some(req) && HeadFits(u.flow, req.head)
    && w.log == u.log + [HeadRead(req)] && w.written == u.written && w.broken == u.broken
    && w.flow.pending == u.flow.pending[req.head..] && w.flow.counted == u.flow.counted
    && (w.flow.waiting ==> u.flow.waiting)
  }

  lemma Opens(http: Http, start: View)
    ensures OpenAt(http, start, [], start)
  {
  }

  /** A course that fits when no error waits fits when one does. */
  lemma FitsWaiting(http: Http, req: HttpRequest, f: Inflow, g: Inflow, c: Course)
    requires Fits(http, req, f, c) && g.pending == f.pending && g.counted == f.counted && (f.waiting ==> g.waiting)
    ensures Fits(http, req, g, c)
  {
    assert MayRefuse(f, req.body, LIMIT) ==> MayRefuse(g, req.body, LIMIT);
  }

  /** The next request is one turn more. */
  lemma TurnTaken(http: Http, start: Inflow, past: seq<Turn>, t: Turn, u: View, w: View)
    requires Placed(http, start, past, u.flow) && t.begun == u.flow
    requires HeadTaken(http, t.req, u, w) && Fits(http, t.req, w.flow, t.course)
    ensures Framed(http, start, past + [t])
    ensures After(start.pending, past + [t]) == Rest(u.flow.pending, t.req.head + t.req.body)
  {
    FitsWaiting(http, t.req, w.flow, BehindHead(t.begun, t.req.head), t.course);
    NextTurn(http, start, past, t);
  }

  /** What its body left, the next request finds. */
  lemma TurnLeaves(req: HttpRequest, u: Inflow, w: View, v: View)
    requires req.head <= |u.pending| && req.body <= |w.flow.pending| && BodyTaken(req, w, v)
    requires w.flow.pending == u.pending[req.head..] && w.flow.counted == u.counted && (w.flow.waiting ==> u.waiting)
    ensures v.flow.pending == Rest(u.pending, req.head + req.body) && Leaves(u, v.flow.waiting)
  {
  }

  lemma PlacedNext(http: Http, start: Inflow, past: seq<Turn>, t: Turn, u: View, w: View, v: View)
    requires Placed(http, start, past, u.flow) && t.begun == u.flow && (past != [] ==> !t.req.connect)
    requires HeadTaken(http, t.req, u, w) && Fits(http, t.req, w.flow, t.course) && Going(t.req, t.course)
    requires BodyTaken(t.req, w, v)
    ensures Placed(http, start, past + [t], v.flow)
  {
    FramedNext(http, start, past, t, u, w);
    TurnLeaves(t.req, u.flow, w, v);
    WaitsNext(start, past, t, v.flow.waiting);
  }

  lemma FramedNext(http: Http, start: Inflow, past: seq<Turn>, t: Turn, u: View, w: View)
    requires Placed(http, start, past, u.flow) && t.begun == u.flow && (past != [] ==> !t.req.connect)
    requires HeadTaken(http, t.req, u, w) && Fits(http, t.req, w.flow, t.course) && Going(t.req, t.course)
    ensures Framed(http, start, past + [t]) && AllGoing(past + [t])
    ensures After(start.pending, past + [t]) == Rest(u.flow.pending, t.req.head + t.req.body)
  {
    TurnTaken(http, start, past, t, u, w);
    GoesOnOrStops(http, start, past, t);
  }

  lemma WaitsNext(start: Inflow, past: seq<Turn>, t: Turn, waiting: bool)
    requires Leaves(t.begun, waiting)
    ensures MayWait(start, past + [t], waiting)
  {
  }

  /** Its events and its text are one turn's more. */
  lemma WrittenNext(http: Http, start: View, past: seq<Turn>, t: Turn, u: View, v: View)
    requires Written(http, start, past, u) && (u.broken ==> v.broken)
    requires v.log == u.log + [HeadRead(t.req)] + EventsOf(t.req, t.course)
    requires !v.broken && Complete(t.course) ==> v.written == u.written + TextOf(http, t.req, t.course)
    ensures v.log == start.log + TurnsEvents(past + [t])
    ensures !v.broken && Complete(t.course) ==> v.written == start.written + TurnsText(http, past + [t])
  {
    EventsAdd(past, t, start.log);
    TextAdds(http, past, t, start.written);
  }

  /** From one request to the next. */
  lemma TurnGoesOn(http: Http, start: View, past: seq<Turn>, t: Turn, u: View, w: View, v: View)
    requires OpenAt(http, start, past, u) && t.begun == u.flow && (past != [] ==> !t.req.connect)
    requires HeadTaken(http, t.req, u, w) && Took(http, t.req, t.course, w, v) && Going(t.req, t.course)
    ensures OpenAt(http, start, past + [t], v)
  {
    PlacedNext(http, start.flow, past, t, u, w, v);
    WrittenNext(http, start, past, t, u, v);
  }

  /** Or to the end of the session. */
  lemma TurnStops(http: Http, start: View, past: seq<Turn>, t: Turn, u: View, w: View, v: View)
    requires OpenAt(http, start, past, u) && t.begun == u.flow && (past != [] ==> !t.req.connect)
    requires HeadTaken(http, t.req, u, w) && Took(http, t.req, t.course, w, v) && !Going(t.req, t.course)
    ensures OverAt(http, start, past + [t], Stopped, v)
  {
    TurnTaken(http, start.flow, past, t, u, w);
    GoesOnOrStops(http, start.flow, past, t);
    WrittenNext(http, start, past, t, u, v);
    NothingAdds(http, past + [t]);
  }

  lemma NothingAdds(http: Http, turns: seq<Turn>)
    ensures SessionEvents(turns, Stopped) == TurnsEvents(turns)
    ensures SessionText(http, turns, Stopped) == TurnsText(http, turns)
  {
  }

  lemma EndingAdds(http: Http, turns: seq<Turn>, e: Ending, log: Log, text: Bytes)
    ensures log + TurnsEvents(turns) + EndingEvents(e) == log + SessionEvents(turns, e)
    ensures text + TurnsText(http, turns) + EndingText(http, e) == text + SessionText(http, turns, e)
  {
    Assoc(log, TurnsEvents(turns), EndingEvents(e));
    Assoc(text, TurnsText(http, turns), EndingText(http, e));
  }

  lemma SessionEnds(http: Http, start: View, served: seq<Turn>, e: Ending, u: View, v: View)
    requires OpenAt(http, start, served, u) && served != []
    requires EndsAt(http, start.flow, served, e) && !e.Stopped?
    requires v.log == u.log + EndingEvents(e) && (u.broken ==> v.broken) && (Cut(e) ==> v.broken)
    requires !v.broken ==> v.written == u.written + EndingText(http, e)
    ensures OverAt(http, start, served, e, v)
  {
    EndsGoing(http, start.flow, served, e);
    EndingAdds(http, served, e, start.log, start.written);
  }

  /** It may be watched no longer. */
  lemma WatchedEnough(http: Http, start: View, served: seq<Turn>, v: View)
    requires OpenAt(http, start, served, v) && served != []
    ensures OverAt(http, start, served, Watched, v)
  {
    SessionEnds(http, start, served, Watched, v, v);
  }

  // ---- a whole HTTP connection, http.go:125-165 ----

  datatype Proxied =
    | Rejected(tooLarge: bool, ok: bool)
    | Connecting(req: HttpRequest, connect: HttpConnect)
    | Serving(turns: seq<Turn>, ending: Ending)

  function ProxiedEvents(p: Proxied): Log {
    match p
    case Rejected(tooLarge, ok) => [HeadFailed(tooLarge), Answered(Status(if tooLarge then 431 else 400), ok)]
    case Connecting(req, c) => [HeadRead(req)] + HttpConnectEvents(c)
    case Serving(turns, e) => SessionEvents(turns, e)
  }

  // ---- a UDP association, udp.go:57-157 ----

  datatype Association =
    | Disabled
    | Full
    | NoAddress
    | NoRelaySocket
    | NoOutSocket
    | Unannounced
    | Associated

  /** What is opened is shut, the last first. */
  function SocketEvents(a: Association): Log {
    match a
    case NoOutSocket => [Opened(Relaying), Shut(Relaying)]
    case Unannounced => [Opened(Relaying), Opened(Outward), Shut(Outward), Shut(Relaying)]
    case Associated => [Opened(Relaying), Opened(Outward), Lease(Established), Shut(Outward), Shut(Relaying)]
    case _ => []
  }

  function UdpEvents(a: Association): Log {
    if a.Disabled? || a.Full? then [] else [UdpTaken] + SocketEvents(a) + [UdpReturned]
  }
}
