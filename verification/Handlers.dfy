/** The handlers of a client connection (socks5.go:63-160, http.go:123-479, udp.go:57-157): what
    they read and write, what they do with the routes they get, and with the bytes they read
    ahead. */
module Handlers {
  import opened Common
  import opened Streams
  import opened RouteRace
  import opened RouteLease
  import opened SessionLog
  import RouteGoroutines
  import RouteReasons
  import SessionTheorems
  import HeaderScanner
  import Socks5Codec
  import S5 = Socks5Stream

  const GREETED: Bytes := [S5.VERSION, S5.NO_AUTH]

  /** What follows a greeting and a request with this command. */
  function AfterRequest(s: Bytes, cmd: Byte): Option<Bytes> {
    match S5.HandshakeEnd(s)
    case None => None
    case Some(h) =>
      match S5.ParseRequest(s[h..])
      case Err(_) => None
      case Ok(p) =>
        S5.RequestFrames(s[h..], []);
        if p.req.cmd == cmd then Some(s[h + p.consumed..]) else None
  }

  /** What a client is told whose greeting or request leads nowhere. */
  function Refusal(s: Bytes): Bytes {
    match S5.HandshakeEnd(s)
    case None => if S5.OffersNothing(s) then [S5.VERSION, S5.NO_ACCEPTABLE] else []
    case Some(h) =>
      match S5.ParseRequest(s[h..])
      case Err(reply) => GREETED + if reply == 0 then [] else S5.Reply(reply)
      case Ok(_) => GREETED + S5.Reply(S5.REP_COMMAND_NOT_SUPPORTED)
  }

  /** What a client is told that asks for a UDP association; nothing if the address of the relay
      cannot be written down. */
  function UdpReply(a: Association, relay: Socks5Codec.Ip, port: int): Bytes {
    match a
    case Disabled => S5.Reply(S5.REP_COMMAND_NOT_SUPPORTED)
    case Unannounced => Announcement(relay, port)
    case Associated => Announcement(relay, port)
    case _ => S5.Reply(S5.REP_GENERAL_FAILURE)
  }

  function Announcement(relay: Socks5Codec.Ip, port: int): Bytes {
    match Socks5Codec.BuildAddr(relay, port)
    case Ok(addr) => [S5.VERSION, S5.REP_SUCCEEDED, 0] + addr
    case Err(_) => []
  }

  /** What becomes of a SOCKS5 connection. */
  datatype Outcome =
    | TurnedAway
    | Connected(r: RouteResult, established: bool)
    | Relayed(a: Association)

  function OutcomeEvents(o: Outcome): Log {
    match o
    case TurnedAway => []
    case Connected(r, established) => ConnectEvents(r, established)
    case Relayed(a) => UdpEvents(a)
  }

  /** A whole request has a command, and what follows it. */
  lemma CommandRead(s: Bytes)
    requires S5.HandshakeEnd(s).Some? && S5.ParseRequest(s[S5.HandshakeEnd(s).value..]).Ok?
    ensures var h := S5.HandshakeEnd(s).value;
            var p := S5.ParseRequest(s[h..]).value;
            && p.consumed <= |s[h..]|
            && AfterRequest(s, S5.CMD_CONNECT)
               == (if p.req.cmd == S5.CMD_CONNECT then Some(s[h..][p.consumed..]) else None)
            && AfterRequest(s, S5.CMD_UDP_ASSOCIATE)
            == (if p.req.cmd == S5.CMD_UDP_ASSOCIATE then Some(s[h..][p.consumed..]) else None)
            && Refusal(s) == GREETED + S5.Reply(S5.REP_COMMAND_NOT_SUPPORTED)
  {
    S5.RequestFrames(s[S5.HandshakeEnd(s).value..], []);
  }

  /** Byte for byte: no acceptable method is answered with 255; behind an accepted greeting an
      address type that is none gets reply 8, an address cut off reply 1, another command reply 7,
      and what is no request nothing. */
  lemma RefusalMeans(s: Bytes)
    ensures S5.HandshakeEnd(s).None? ==> Refusal(s) == if S5.OffersNothing(s) then [5, 255] else []
    ensures S5.HandshakeEnd(s).Some? ==>
              var q := s[S5.HandshakeEnd(s).value..];
              Refusal(s) == [5, 0] + if |q| < 4 || q[0] != 5 then [] else [5, CodeFor(q), 0, 1, 0, 0, 0, 0, 0, 0]
  {
    if S5.HandshakeEnd(s).Some? {
      var q := s[S5.HandshakeEnd(s).value..];
      if S5.ParseRequest(q).Err? {
        S5.RefusedRequest(q);
      }
      if |q| >= 4 {
        S5.ReplyBytes(CodeFor(q));
      }
    }
  }

  function CodeFor(q: Bytes): Byte
    requires |q| >= 4
  {
    if S5.ParseRequest(q).Ok? then 7 else if q[3] != 1 && q[3] != 3 && q[3] != 4 then 8 else 1
  }

  lemma OutcomeSettles(o: Outcome)
    requires o.Connected? ==> o.r == NO_ROUTE || Routable(o.r)
    ensures Settled(OutcomeEvents(o))
  {
    match o
    case TurnedAway =>
    case Connected(r, established) =>
      SessionTheorems.ConnectSettles(r, established);
    case Relayed(a) =>
      SessionTheorems.UdpSettles(a);
  }

  /** A head that was read and not refused is counted within the limit, if its end is seen. */
  lemma HeadIsCounted(f: Inflow, head: Bytes, buf: Bytes, seen: Bytes, incoming: Bytes)
    requires f.pending == head + (buf + incoming) && f.counted == seen + incoming && Counts(f)
    requires HeaderScanner.FirstEmptyLine(f.pending, 0) == Some(|head|) && !HeaderScanner.Oversize(seen, LIMIT)
    ensures HeadFits(f, |head|)
  {
    HeaderScanner.FirstEmptyLineMeans(f.pending, 0, |head|);
    var a := ReadAhead(f);
    var k := |head| - a;
    if HeaderScanner.EndsAt(f.counted, k) && k > LIMIT {
      assert f.pending == f.pending[..a] + f.counted;
      HeaderScanner.CountsBehindTheReadAhead(f.pending[..a], f.counted, |head|, LIMIT);
      HeaderScanner.DecisionsStay(seen, incoming, LIMIT);
    }
  }

  /** What the proxy meets when a client asks for a UDP association: whether there is a place, whether
      the client's address is known, whether the two sockets can be opened, and the address of the
      first. */
  datatype UdpSetup = UdpSetup(
    room: bool, located: bool, listens: bool, listensOut: bool, bound: Socks5Codec.Ip, boundPort: nat)

  class Session {
    const client: Socket
    const reader: BufReader
    const http: Http
    const enableUDP: bool
    const udp: UdpSetup
    ghost var log: Log

    /** For the SOCKS5 port. */
    constructor (client: Socket, http: Http, enableUDP: bool, udp: UdpSetup)
      ensures this.client == client && this.http == http && this.enableUDP == enableUDP && this.udp == udp
      ensures log == [] && Unlimited() && fresh(reader) && reader.buf == []
    {
      this.client, this.http, this.enableUDP, this.udp, log := client, http, enableUDP, udp, [];
      reader := new BufReader(client);
    }

    /** For the HTTP port: the limit reader stands between the connection and the buffer. */
    constructor ForHttp(client: Socket, http: Http)
      ensures this.client == client && this.http == http && log == []
      ensures Limited() && fresh(reader) && fresh(reader.Parts()) && Untouched()
    {
      this.client, this.http, enableUDP, log := client, http, false, [];
      udp := UdpSetup(false, false, false, false, Socks5Codec.Nil, 0);
      reader := new BufReader.Limited(client, LIMIT);
    }

    ghost predicate Unlimited()
      reads reader`err, reader.Parts()
    {
      reader.conn == client && reader.limiter == null && reader.Ready()
    }

    ghost predicate Limited()
      reads reader`err, reader.Parts()
    {
      reader.conn == client && reader.limiter != null && reader.limiter.limit == LIMIT && reader.Ready()
    }

    /** Nothing has been read yet. */
    ghost predicate Untouched()
      reads reader`buf, reader`err, reader.Parts()
    {
      reader.buf == [] && !reader.err && (reader.limiter != null ==> reader.limiter.seen == [])
    }

    // ---- what is seen of it ----

    ghost function Now(): View
      reads this`log, reader`buf, reader`err, reader.conn`incoming, reader.Parts(), client`written, client`broken
    {
      View(log, reader.Flow(), client.written, client.broken)
    }

    // ---- routes ----

    /** A route and the socket at its far end, if there is one. */
    method SelectRoute() returns (result: RouteResult, target: Socket?)
      modifies this`log
      ensures log == old(log) + [Lease(Selected(result))] && RouteReasons.Returns(result)
      ensures if target == null then result == NO_ROUTE else Routable(result)
      ensures target != null ==> fresh(target) && target.written == [] && !target.broken && !target.closed
    {
      var view: Option<CacheView>, out: RouteGoroutines.Outlook := *, *;
      ghost var deadline: nat, at := *, 0;
      var selection := new RouteGoroutines.RouteSelection(view, deadline);
      result, at := selection.SelectRoute(out);
      target := null;
      if result.conn.Some? {
        var sends: Bytes := *;
        target := new Socket(sends);
      }
      log := log + [Lease(Selected(result))];
    }

    /** closeRouteResult, and what the handlers of tunnels defer. */
    method CloseRouteResult(result: RouteResult, target: Socket?)
      requires result.conn.Some? <==> target != null
      modifies this`log, if target == null then {} else {target}
      ensures log == old(log) + Release(result)
      ensures target != null ==>
                target.closed && target.written == old(target.written) && target.broken == old(target.broken)
    {
      if target != null {
        target.closed := true;
        log := log + [Lease(Closed(result.conn.value))];
      }
      if result.sshClient.Some? {
        log := log + [Lease(PutBack(result.sshClient.value))];
      }
    }

    // ---- tunnels ----

    /** Both relays; a tunnel ends when both directions have.  Each direction delivers a prefix
        of what came in, all of it unless something broke. */
    method RelayBoth(target: Socket)
      requires target != client
      modifies client, target
      ensures old(target.written) <= target.written <= old(target.written) + old(client.incoming)
      ensures old(client.written) <= client.written <= old(client.written) + old(target.incoming)
      ensures !client.broken && !target.broken ==>
                && target.written == old(target.written) + old(client.incoming)
                && client.written == old(client.written) + old(target.incoming)
      ensures old(client.broken) ==> client.broken
      ensures old(target.broken) ==> target.broken
    {
      Relay(target, client);
      Relay(client, target);
    }

    /** What was read ahead, then the rest: the target gets what the client sends after its
        request, in order and once. */
    method TunnelAll(target: Socket) returns (ghost established: bool)
      requires target != client && reader.conn == client && target.written == [] && !target.broken
      modifies this`log, reader`buf, client, target
      ensures log == old(log) + Joined(established) && (!established ==> target.broken)
      ensures target.written <= old(reader.Pending())
      ensures !client.broken && !target.broken ==>
                && target.written == old(reader.Pending())
                && client.written == old(client.written) + old(target.incoming)
      ensures old(client.broken) ==> client.broken
    {
      ghost var early, later := reader.buf, client.incoming;
      var ok := Splice(target, reader);
      established := ok;
      if ok {
        assert target.written == early;
        log := log + [Lease(Established)];
        RelayBoth(target);
        assert target.written <= early + later;
      } else {
        assert target.written <= early;
      }
    }

    /** From the success reply to the end of the tunnel, socks5.go:129-159. */
    method ServeConnect(target: Socket) returns (ghost established: bool)
      requires target != client && reader.conn == client && target.written == [] && !target.broken
      modifies this`log, reader, client, target
      ensures log == old(log) + Joined(established)
      ensures !established ==> client.broken || target.broken
      ensures target.written <= old(reader.Pending())
      ensures !client.broken && !target.broken ==>
                && target.written == old(reader.Pending())
                && client.written == old(client.written) + S5.Reply(S5.REP_SUCCEEDED) + old(target.incoming)
      ensures old(client.broken) ==> client.broken
    {
      var ok := client.Write(S5.Reply(S5.REP_SUCCEEDED));
      established := false;
      if ok {
        established := TunnelAll(target);
      }
    }

    /** handleConnect.  It refuses exactly when there is no route. */
    method HandleConnect()
      returns (target: Socket?, ghost r: RouteResult, ghost established: bool, ghost downstream: Bytes)
      requires reader.conn == client
      modifies this`log, reader, client
      ensures log == old(log) + ConnectEvents(r, established)
      ensures if target == null then r == NO_ROUTE else Routable(r)
      ensures target != null && !established ==> client.broken || target.broken
      ensures target != null ==> fresh(target) && target.closed && target.written <= old(reader.Pending())
      ensures target != null && !client.broken && !target.broken ==>
                && target.written == old(reader.Pending())
                && client.written == old(client.written) + S5.Reply(S5.REP_SUCCEEDED) + downstream
      ensures target == null && !client.broken ==>
                client.written == old(client.written) + S5.Reply(S5.REP_GENERAL_FAILURE)
      ensures old(client.broken) ==> client.broken
    {
      var result;
      result, target := SelectRoute();
      r, established, downstream := result, false, [];
      if target == null {
        var _ := client.Write(S5.Reply(S5.REP_GENERAL_FAILURE));
      } else {
        downstream := target.incoming;
        established := ServeAndRelease(result, target);
        HeldAdds(old(log), result, [], established, false);
        NothingBehind(old(log) + [Lease(Selected(result))]);
        NothingBehind(log);
      }
    }

    /** With a route, socks5.go:122-159. */
    method ServeAndRelease(result: RouteResult, target: Socket) returns (ghost established: bool)
      requires target != client && reader.conn == client && target.written == [] && !target.broken && Routable(result)
      modifies this`log, reader, client, target
      ensures log == old(log) + Joined(established) + Release(result) && target.closed
      ensures !established ==> client.broken || target.broken
      ensures target.written <= old(reader.Pending())
      ensures !client.broken && !target.broken ==>
                && target.written == old(reader.Pending())
                && client.written == old(client.written) + S5.Reply(S5.REP_SUCCEEDED) + old(target.incoming)
      ensures old(client.broken) ==> client.broken
    {
      established := ServeConnect(target);
      CloseRouteResult(result, target);
    }

    // ---- UDP ASSOCIATE, udp.go:57-157 ----

    /** The first thing that is missing decides; if nothing is, the association is announced, unless the
        address of the relay cannot be written down or the connection is broken. */
    predicate Warranted(a: Association) {
      match a
      case Disabled => !enableUDP
      case Full => enableUDP && !udp.room
      case NoAddress => enableUDP && udp.room && !udp.located
      case NoRelaySocket => enableUDP && udp.room && udp.located && !udp.listens
      case NoOutSocket => enableUDP && udp.room && udp.located && udp.listens && !udp.listensOut
      case _ => enableUDP && udp.room && udp.located && udp.listens && udp.listensOut
    }

    /** Each place and socket taken is given back on every path, the last first; the association
        lives until the client closes its connection or the packets end it. */
    method HandleUDPAssociate() returns (ghost a: Association)
      modifies this`log, client`incoming, client`broken, client`written
      ensures log == old(log) + UdpEvents(a) && Warranted(a)
      ensures !client.broken ==> client.written == old(client.written) + UdpReply(a, udp.bound, udp.boundPort)
      ensures a.Associated? ==> Socks5Codec.BuildAddr(udp.bound, udp.boundPort).Ok?
      ensures a.Unannounced? ==> client.broken || Socks5Codec.BuildAddr(udp.bound, udp.boundPort).Err?
      ensures old(client.broken) ==> client.broken
    {
      if !enableUDP {
        var _ := client.Write(S5.Reply(S5.REP_COMMAND_NOT_SUPPORTED));
        a := Disabled;
      } else if !udp.room {
        var _ := client.Write(S5.Reply(S5.REP_GENERAL_FAILURE));
        a := Full;
      } else {
        log := log + [UdpTaken];
        a := OpenAssociation();
        log := log + [UdpReturned];
      }
    }

    /** With a place taken, udp.go:77-128. */
    method OpenAssociation() returns (ghost a: Association)
      requires enableUDP && udp.room
      modifies this`log, client`incoming, client`broken, client`written
      ensures log == old(log) + SocketEvents(a) && !a.Disabled? && !a.Full? && Warranted(a)
      ensures !client.broken ==> client.written == old(client.written) + UdpReply(a, udp.bound, udp.boundPort)
      ensures a.Associated? ==> Socks5Codec.BuildAddr(udp.bound, udp.boundPort).Ok?
      ensures a.Unannounced? ==> client.broken || Socks5Codec.BuildAddr(udp.bound, udp.boundPort).Err?
      ensures old(client.broken) ==> client.broken
    {
      if !udp.located || !udp.listens {
        var _ := client.Write(S5.Reply(S5.REP_GENERAL_FAILURE));
        a := if udp.located then NoRelaySocket else NoAddress;
        return;
      }
      log := log + [Opened(Relaying)];
      if !udp.listensOut {
        var _ := client.Write(S5.Reply(S5.REP_GENERAL_FAILURE));
        log := log + [Shut(Relaying)];
        a := NoOutSocket;
        return;
      }
      log := log + [Opened(Outward)];
      var ok := Announce(udp.bound, udp.boundPort);
      a := Unannounced;
      if ok {
        a := Associated;
        log := log + [Lease(Established)];
        AwaitEnd();
      }
      log := log + [Shut(Outward)];
      log := log + [Shut(Relaying)];
    }

    /** sendSocks5Reply with the address of the relay, udp.go:110-115. */
    method Announce(relay: Socks5Codec.Ip, port: int) returns (ok: bool)
      modifies client`written, client`broken
      ensures !client.broken ==> client.written == old(client.written) + Announcement(relay, port)
      ensures if ok then Socks5Codec.BuildAddr(relay, port).Ok?
              else client.broken || Socks5Codec.BuildAddr(relay, port).Err?
      ensures old(client.broken) ==> client.broken
    {
      match Socks5Codec.BuildAddr(relay, port) {
        case Err(_) =>
          ok := false;
        case Ok(addr) =>
          ok := client.Write([S5.VERSION, S5.REP_SUCCEEDED, 0] + addr);
      }
    }

    /** Reads the control connection until it ends, or the association ends first. */
    method AwaitEnd()
      modifies client`incoming, client`broken
      ensures old(client.broken) ==> client.broken
    {
      var going := true;
      while going
        invariant old(client.broken) ==> client.broken
        decreases going, |client.incoming|
      {
        var chunk;
        chunk, going := client.Read(512);
        var done: bool := *;
        going := going && !done;
      }
    }

    // ---- SOCKS5, socks5.go:67-110 ----

    /** The whole connection, for any greeting, request and payload and any cutting of them.
        The bytes of the client decide what becomes of it.  Whatever breaks, a target gets
        nothing but a prefix of what follows the request; if nothing breaks it gets all of it, and
        the client all that the target sends. */
    method HandleConnection() returns (target: Socket?, ghost outcome: Outcome, ghost downstream: Bytes)
      requires Unlimited() && log == [] && client.written == []
      modifies this`log, reader, client
      ensures log == OutcomeEvents(outcome) && Settled(log) && client.closed
      ensures target != null ==> fresh(target)
      ensures Serves(old(reader.Pending()), target, outcome, downstream)
    {
      ghost var s := reader.Pending();
      target, outcome, downstream := null, TurnedAway, [];
      var ok := S5.Handshake(reader);
      if ok {
        target, outcome, downstream := ServeRequest(s);
      }
      OutcomeSettles(outcome);
      client.closed := true;
    }

    /** From the request on. */
    method ServeRequest(ghost s: Bytes) returns (target: Socket?, ghost outcome: Outcome, ghost downstream: Bytes)
      requires Unlimited() && S5.HandshakeEnd(s).Some?
      requires reader.Pending() == s[S5.HandshakeEnd(s).value..] && client.written == GREETED
      modifies this`log, reader, client
      ensures log == old(log) + OutcomeEvents(outcome)
      ensures target != null ==> fresh(target)
      ensures Serves(s, target, outcome, downstream)
    {
      var result := S5.ReadRequest(reader);
      match result {
        case Err(reply) =>
          target, outcome, downstream := null, TurnedAway, [];
          if reply != 0 {
            var _ := client.Write(S5.Reply(reply));
          }
        case Ok(req) =>
          CommandRead(s);
          target, outcome, downstream :=
            ServeCommand(req.cmd, AfterRequest(s, S5.CMD_CONNECT), AfterRequest(s, S5.CMD_UDP_ASSOCIATE), Refusal(s));
      }
    }

    /** By the command of the request. */
    method ServeCommand(cmd: Byte, ghost connect: Option<Bytes>, ghost associate: Option<Bytes>, ghost refusal: Bytes)
      returns (target: Socket?, ghost outcome: Outcome, ghost downstream: Bytes)
      requires reader.conn == client && client.written == GREETED
      requires connect == if cmd == S5.CMD_CONNECT then Some(reader.Pending()) else None
      requires associate == if cmd == S5.CMD_UDP_ASSOCIATE then Some(reader.Pending()) else None
      requires connect.None? && associate.None? ==> refusal == GREETED + S5.Reply(S5.REP_COMMAND_NOT_SUPPORTED)
      modifies this`log, reader, client
      ensures log == old(log) + OutcomeEvents(outcome)
      ensures target != null ==> fresh(target)
      ensures ServesBy(connect, associate, refusal, target, outcome, downstream)
    {
      target, outcome, downstream := null, TurnedAway, [];
      if cmd == S5.CMD_CONNECT {
        ghost var r, established;
        target, r, established, downstream := HandleConnect();
        outcome := Connected(r, established);
      } else if cmd == S5.CMD_UDP_ASSOCIATE {
        ghost var a := HandleUDPAssociate();
        outcome := Relayed(a);
      } else {
        var _ := client.Write(S5.Reply(S5.REP_COMMAND_NOT_SUPPORTED));
      }
    }

    /** The outcome is the one the client's bytes ask for: nothing is refused but what is
        malformed, not supported or without a route, unless the connection breaks; and both
        sides get what they should. */
    ghost predicate Serves(s: Bytes, target: Socket?, outcome: Outcome, downstream: Bytes)
      reads client`written, client`broken, if target == null then {} else {target}
    {
      ServesBy(AfterRequest(s, S5.CMD_CONNECT), AfterRequest(s, S5.CMD_UDP_ASSOCIATE), Refusal(s),
               target, outcome, downstream)
    }

    ghost predicate ServesBy(connect: Option<Bytes>, associate: Option<Bytes>, refusal: Bytes,
                             target: Socket?, outcome: Outcome, downstream: Bytes)
      reads client`written, client`broken, if target == null then {} else {target}
    {
      match outcome
      case TurnedAway =>
        && target == null && (client.broken || (connect.None? && associate.None?))
        && (!client.broken ==> client.written == refusal)
      case Connected(r, established) =>
        && connect.Some?
        && if target == null then
             r == NO_ROUTE && (!client.broken ==> client.written == GREETED + S5.Reply(S5.REP_GENERAL_FAILURE))
           else
             && Routable(r) && target.closed && (established || client.broken || target.broken)
             && target.written <= connect.value
             && (!client.broken && !target.broken ==>
                   && target.written == connect.value
                   && client.written == GREETED + S5.Reply(S5.REP_SUCCEEDED) + downstream)
      case Relayed(a) =>
        && target == null && associate.Some? && Warranted(a)
        && (a.Associated? ==> Socks5Codec.BuildAddr(udp.bound, udp.boundPort).Ok?)
        && (a.Unannounced? ==> client.broken || Socks5Codec.BuildAddr(udp.bound, udp.boundPort).Err?)
        && (!client.broken ==> client.written == GREETED + UdpReply(a, udp.bound, udp.boundPort))
    }

    // ---- HTTP: the client's side ----

    /** beginRequest: what is still to come is counted anew, but for what was read ahead. */
    method BeginRequest()
      requires Limited()
      modifies reader.Parts()
      ensures Limited() && reader.limiter.seen == []
      ensures Now() == old(Now()).(flow := old(reader.Flow()).(counted := client.incoming))
      ensures Counts(reader.Flow())
    {
      reader.limiter.BeginRequest();
    }

    /** http.ReadRequest, and whether the limit was passed: takes exactly the head. */
    method ReadHttpRequest() returns (head: Head)
      requires Limited() && reader.limiter.seen == [] && Counts(reader.Flow())
      modifies this`log, reader`buf, reader`err, client`incoming, client`broken, reader.Parts()
      ensures Limited() && client.written == old(client.written)
      ensures match head
              case Good(req) =>
                HeadTaken(http, req, old(Now()), Now()) && reader.Steady()
              case Malformed =>
                && (client.broken || http.Request(old(reader.Pending())).None? || old(reader.err))
                && log == old(log) + [HeadFailed(false)]
              case TooLarge =>
                && HeaderScanner.Oversize(old(reader.Flow()).counted, LIMIT)
                && log == old(log) + [HeadFailed(true)]
      ensures old(client.broken) ==> client.broken
    {
      var req := http.Request(reader.buf + client.incoming);
      var size: nat := *;
      if req.Some? {
        size := req.value.head;
      }
      var ok, refused := TakeHead(size);
      if refused {
        head := TooLarge;
      } else if ok && req.Some? {
        head := Good(req.value);
      } else {
        head := Malformed;
      }
      log := log + [match head
                    case Good(q) => HeadRead(q)
                    case Malformed => HeadFailed(false)
                    case _ => HeadFailed(true)];
    }

    /** The bytes of a head, or of some of it. */
    method TakeHead(size: nat) returns (ok: bool, refused: bool)
      requires Limited() && reader.limiter.seen == [] && Counts(reader.Flow())
      modifies reader`buf, reader`err, client`incoming, client`broken, reader.Parts()
      ensures Limited() && (old(client.broken) ==> client.broken)
      ensures if refused then HeaderScanner.Oversize(old(reader.Flow()).counted, LIMIT) else reader.Steady()
      ensures ok && !refused ==>
                && size <= |old(reader.Pending())| && reader.Pending() == old(reader.Pending())[size..]
                && reader.Flow().counted == old(reader.Flow()).counted && (reader.err ==> old(reader.err))
                && client.broken == old(client.broken)
                && (HeaderScanner.FirstEmptyLine(old(reader.Pending()), 0) == Some(size) ==>
                      HeadFits(old(reader.Flow()), size))
      ensures !ok && !refused ==> client.broken || |old(reader.Pending())| < size || old(reader.err)
    {
      ghost var f := reader.Flow();
      var bytes;
      bytes, ok := reader.ReadHead(size);
      HeaderScanner.JudgeMeans(reader.limiter.seen, LIMIT);
      Passed(reader.limiter.seen, client.incoming, LIMIT);
      refused := reader.limiter.tooLarge;
      if ok && !refused && HeaderScanner.FirstEmptyLine(f.pending, 0) == Some(size) {
        HeadIsCounted(f, bytes, reader.buf, reader.limiter.seen, client.incoming);
      }
    }

    /** A response written to the client, whole or in part. */
    method Answer(answer: Answer, text: Bytes) returns (ok: bool)
      modifies this`log, client`written, client`broken
      ensures log == old(log) + [Answered(answer, ok)]
      ensures old(client.written) <= client.written
      ensures if ok then client.written == old(client.written) + text && client.broken == old(client.broken)
              else client.broken
    {
      ok := client.Write(text);
      log := log + [Answered(answer, ok)];
    }

    // ---- CONNECT, http.go:188-244 ----

    /** It is refused exactly without a host or without a route. */
    method HandleHTTPConnect(req: HttpRequest, early: Bytes)
      returns (target: Socket?, ghost c: HttpConnect, ghost downstream: Bytes)
      modifies this`log, client
      ensures log == old(log) + HttpConnectEvents(c)
      ensures c.NoHost? <==> !req.hasHost
      ensures c.Tunnelling? <==> target != null
      ensures !c.ok ==> client.broken
      ensures c.Tunnelling? ==>
                && fresh(target) && target.closed && Routable(c.r) && (c.tunnelled || client.broken || target.broken)
                && target.written <= early + old(client.incoming)
      ensures c.Tunnelling? && !client.broken && !target.broken ==>
                && target.written == early + old(client.incoming)
                && client.written == old(client.written) + http.wording(200) + downstream
      ensures !c.Tunnelling? && !client.broken ==>
                client.written == old(client.written) + http.wording(if c.NoHost? then 400 else 502)
      ensures old(client.broken) ==> client.broken
    {
      target, downstream := null, [];
      if !req.hasHost {
        var ok := Answer(Status(400), http.wording(400));
        c := NoHost(ok);
        return;
      }
      ghost var before := log;
      var result;
      result, target := SelectRoute();
      if target == null {
        var ok := Answer(Status(502), http.wording(502));
        c := NoRoute(ok);
        return;
      }
      downstream := target.incoming;
      ghost var ok, established := OpenTunnel(target, early);
      CloseRouteResult(result, target);
      c := Tunnelling(result, ok, established);
      TunnelAdds(before, result, [Answered(Tunnel, ok)], established);
    }

    /** From the 200 to the end of the tunnel, http.go:215-243. */
    method OpenTunnel(target: Socket, early: Bytes) returns (ghost answered: bool, ghost established: bool)
      requires target != client && target.written == [] && !target.broken
      modifies this`log, client, target
      ensures log == old(log) + [Answered(Tunnel, answered)] + Joined(established)
      ensures (!answered ==> client.broken) && (established || client.broken || target.broken)
      ensures target.written <= early + old(client.incoming)
      ensures !client.broken && !target.broken ==>
                && target.written == early + old(client.incoming)
                && client.written == old(client.written) + http.wording(200) + old(target.incoming)
      ensures old(client.broken) ==> client.broken
    {
      var ok := Answer(Tunnel, http.wording(200));
      answered, established := ok, false;
      if ok {
        established := TunnelEarly(target, early);
      }
    }

    /** The bytes read ahead were taken out before the route was chosen. */
    method TunnelEarly(target: Socket, early: Bytes) returns (ghost established: bool)
      requires target != client && target.written == [] && !target.broken
      modifies this`log, client, target
      ensures log == old(log) + Joined(established) && (!established ==> target.broken)
      ensures target.written <= early + old(client.incoming)
      ensures !client.broken && !target.broken ==>
                && target.written == early + old(client.incoming)
                && client.written == old(client.written) + old(target.incoming)
      ensures old(client.broken) ==> client.broken
    {
      ghost var later := client.incoming;
      var ok := true;
      if |early| > 0 {
        ok := target.Write(early);
      }
      established := ok;
      if ok {
        assert target.written == early;
        log := log + [Lease(Established)];
        RelayBoth(target);
        assert target.written <= early + later;
      } else {
        assert target.written <= early;
      }
    }

    // ---- HTTP: the target's side ----

    /** req.Write: the request, with its body taken from the client's stream; cut off when the
        body is, when the limit reader refuses it, or when a connection breaks. */
    method SendRequest(req: HttpRequest, target: Socket) returns (ok: bool)
      requires target != client && Limited() && reader.Steady() && target.written == []
      modifies this`log, reader`buf, reader`err, client`incoming, client`broken, reader.Parts()
      modifies target`written, target`broken
      ensures Limited() && log == old(log) + [RequestSent(ok)]
      ensures if ok then
                && Sendable(req, old(reader.Flow())) && reader.Pending() == Rest(old(reader.Pending()), req.body)
                && target.written == http.ask(req, First(old(reader.Pending()), req.body))
                && client.broken == old(client.broken) && target.broken == old(target.broken)
              else client.broken || target.broken || Unsendable(req, old(reader.Flow()))
      ensures Leaves(old(reader.Flow()), reader.err)
      ensures old(client.broken) ==> client.broken
      ensures old(target.broken) ==> target.broken
    {
      var body, read := reader.ReadBody(req.body);
      assert read ==> body == First(old(reader.Pending()), req.body);
      Passed(reader.limiter.seen, client.incoming, LIMIT);
      var text := http.ask(req, body);
      if !read {
        text := *;
      }
      ok := target.Write(text);
      ok := ok && read;
      log := log + [RequestSent(ok)];
    }

    /** http.ReadResponse: takes exactly the head. */
    method ReadResponse(upReader: BufReader) returns (resp: Option<HttpResponse>)
      requires upReader.limiter == null && upReader.Ready()
      modifies this`log, upReader`buf, upReader`err, upReader.conn`incoming, upReader.conn`broken
      ensures upReader.Ready()
      ensures match resp
              case Some(p) =>
                && http.Response(old(upReader.Pending())) == resp && upReader.conn.broken == old(upReader.conn.broken)
                && upReader.Pending() == Rest(old(upReader.Pending()), p.head)
                && log == old(log) + [ResponseRead(p)]
              case None =>
                && (upReader.conn.broken || http.Response(old(upReader.Pending())).None?)
                && log == old(log) + [ResponseFailed]
      ensures old(upReader.conn.broken) ==> upReader.conn.broken
    {
      resp := http.Response(upReader.buf + upReader.conn.incoming);
      var size: nat := *;
      if resp.Some? {
        size := resp.value.head;
      }
      var head, ok := upReader.ReadFull(size);
      if !ok {
        resp := None;
      }
      log := log + [ReadEvent(resp)];
    }

    /** resp.Write: the response, with its body taken from the target's stream. */
    method ForwardResponse(resp: HttpResponse, upReader: BufReader, close: bool) returns (ok: bool)
      requires upReader.conn != client && upReader.limiter == null && upReader.Ready()
      modifies this`log, upReader`buf, upReader`err, upReader.conn`incoming, upReader.conn`broken
      modifies client`written, client`broken
      ensures log == old(log) + [Answered(Forwarded, ok)]
      ensures if ok then
                && resp.body <= |old(upReader.Pending())|
                && client.written
                   == old(client.written) + http.reply(resp, First(old(upReader.Pending()), resp.body), close)
                && client.broken == old(client.broken) && upReader.conn.broken == old(upReader.conn.broken)
              else client.broken || upReader.conn.broken || |old(upReader.Pending())| < resp.body
      ensures old(client.broken) ==> client.broken
      ensures old(upReader.conn.broken) ==> upReader.conn.broken
    {
      var body, read := upReader.ReadFull(resp.body);
      assert read ==> body == First(old(upReader.Pending()), resp.body);
      var text := http.reply(resp, body, close);
      if !read {
        text := *;
      }
      ok := client.Write(text);
      ok := ok && read;
      log := log + [Answered(Forwarded, ok)];
    }

    // ---- upgrades, http.go:406-479 ----

    /** The 101 and all that follows it in both directions, http.go:447-478: what either side
        sent early goes before the relays, so each gets the rest of the other's stream. */
    method SwitchProtocols(resp: HttpResponse, target: Socket, upReader: BufReader)
      returns (ok: bool, ghost established: bool)
      requires target != client && reader.conn == client && upReader.conn == target && upReader != reader
      modifies this`log, reader`buf, upReader`buf, client, target
      ensures log == old(log) + [Answered(Tunnel, ok)] + Joined(established)
      ensures if established then ok else client.broken || target.broken
      ensures !ok ==> client.broken
      ensures old(target.written) <= target.written <= old(target.written) + old(reader.Pending())
      ensures !client.broken && !target.broken ==>
                && target.written == old(target.written) + old(reader.Pending())
                && client.written == old(client.written) + (http.reply(resp, [], false) + old(upReader.Pending()))
      ensures old(client.broken) ==> client.broken
      ensures old(target.broken) ==> target.broken
    {
      ghost var up, down, written := reader.buf, upReader.buf, client.written;
      var head := http.reply(resp, [], false);
      ok := Answer(Tunnel, head);
      established := false;
      if ok {
        var sent := Splice(client, upReader);
        if sent {
          assert client.written == written + head + down;
          sent := Splice(target, reader);
          established := sent;
          if sent {
            JoinBoth(target, written + head, down, old(target.written), up);
            assert written + head + down + old(target.incoming) == written + (head + old(upReader.Pending()));
          }
        }
      }
    }

    /** After the splices. */
    method JoinBoth(target: Socket, ghost toClient: Bytes, ghost down: Bytes, ghost toTarget: Bytes, ghost up: Bytes)
      requires target != client
      requires client.written == toClient + down && target.written == toTarget + up
      modifies this`log, client, target
      ensures log == old(log) + [Lease(Established)]
      ensures toTarget <= target.written <= toTarget + (up + old(client.incoming))
      ensures !client.broken && !target.broken ==>
                && target.written == toTarget + (up + old(client.incoming))
                && client.written == toClient + down + old(target.incoming)
      ensures old(client.broken) ==> client.broken
      ensures old(target.broken) ==> target.broken
    {
      ghost var later := client.incoming;
      log := log + [Lease(Established)];
      RelayBoth(target);
      assert toTarget + up + later == toTarget + (up + later);
    }

    /** The whole exchange of an upgrade: 502 only if the request could not be sent whole or the
        target's stream begins with no response, a tunnel exactly after a 101. */
    method ServeHTTPUpgrade(req: HttpRequest, result: RouteResult, target: Socket) returns (ghost u: Upgrading)
      requires target != client && Limited() && reader.Steady() && target.written == [] && Routable(result)
      modifies this`log, reader, reader.Parts(), client, target
      ensures Limited()
      ensures log == old(log) + UpgradeTalk(u) + Joined(u.Switched? && u.tunnelled) + Release(result) && target.closed
      ensures Upgrades(http, req, old(reader.Flow()), old(target.incoming), u)
      ensures UpgradeAsked(http, req, old(reader.Pending()), target.written, u)
      ensures u.lost ==> client.broken || target.broken
      ensures (u.NotSent? || u.NotAnswered?) && !u.ok ==> client.broken
      ensures !client.broken && (u.Refused? ==> u.ok) && (u.Switched? ==> !u.lost) ==>
                client.written == old(client.written) + UpgradeText(http, old(target.incoming), u)
      ensures old(client.broken) ==> client.broken
    {
      u := Negotiate(req, target);
      CloseRouteResult(result, target);
    }

    /** Up to the deferred release. */
    method Negotiate(req: HttpRequest, target: Socket) returns (ghost u: Upgrading)
      requires target != client && Limited() && reader.Steady() && target.written == []
      modifies this`log, reader, reader.Parts(), client, target
      ensures Limited()
      ensures log == old(log) + UpgradeTalk(u) + Joined(u.Switched? && u.tunnelled)
      ensures Upgrades(http, req, old(reader.Flow()), old(target.incoming), u)
      ensures UpgradeAsked(http, req, old(reader.Pending()), target.written, u)
      ensures u.lost ==> client.broken || target.broken
      ensures (u.NotSent? || u.NotAnswered?) && !u.ok ==> client.broken
      ensures !client.broken && (u.Refused? ==> u.ok) && (u.Switched? ==> !u.lost) ==>
                client.written == old(client.written) + UpgradeText(http, old(target.incoming), u)
      ensures old(client.broken) ==> client.broken
    {
      ghost var before := log;
      var sent := SendRequest(req, target);
      if sent {
        u := FinishUpgrade(target);
      } else {
        var ok := Answer(Status(502), http.wording(502));
        u := NotSent(ok, client.broken || target.broken);
      }
      UpgradeAdds(before, u);
    }

    /** After the request, http.go:425-478. */
    method FinishUpgrade(target: Socket) returns (ghost u: Upgrading)
      requires target != client && reader.conn == client
      modifies this`log, reader`buf, client, target
      ensures !u.NotSent? && log == old(log) + UpgradeReply(u) + Joined(u.Switched? && u.tunnelled)
      ensures UpgradeHeard(http, old(target.incoming), u)
      ensures old(target.written) <= target.written <= old(target.written) + old(reader.Pending())
      ensures !u.Switched? ==> target.written == old(target.written)
      ensures u.Switched? && !u.lost ==> target.written == old(target.written) + old(reader.Pending())
      ensures u.lost ==> client.broken || target.broken
      ensures u.NotAnswered? && !u.ok ==> client.broken
      ensures !client.broken && (u.Refused? ==> u.ok) && (u.Switched? ==> !u.lost) ==>
                client.written == old(client.written) + UpgradeText(http, old(target.incoming), u)
      ensures old(client.broken) ==> client.broken
    {
      var upReader := new BufReader(target);
      assert upReader.Pending() == target.incoming;
      var resp := ReadResponse(upReader);
      if resp.None? {
        var ok := Answer(Status(502), http.wording(502));
        u := NotAnswered(ok, client.broken || target.broken);
      } else {
        u := PassOn(resp.value, target, upReader);
      }
    }

    /** A 101 switches protocols, any other response goes back as it is, http.go:429-478. */
    method PassOn(resp: HttpResponse, target: Socket, upReader: BufReader) returns (ghost u: Upgrading)
      requires target != client && reader.conn == client && upReader.conn == target && upReader != reader
      requires upReader.limiter == null && upReader.Ready()
      modifies this`log, reader`buf, upReader`buf, upReader`err, client, target
      ensures if resp.kind.Switching? then u.Switched? else u.Refused?
      ensures u.resp == resp && (u.lost <==> client.broken || target.broken)
      ensures log == old(log) + [Answered(if u.Switched? then Tunnel else Forwarded, u.ok)]
                     + Joined(u.Switched? && u.tunnelled)
      ensures u.Refused? && !u.ok ==> u.lost || |old(upReader.Pending())| < resp.body
      ensures u.Refused? && u.ok ==> resp.body <= |old(upReader.Pending())|
      ensures u.Switched? ==> if u.tunnelled then u.ok else u.lost
      ensures old(target.written) <= target.written <= old(target.written) + old(reader.Pending())
      ensures u.Refused? ==> target.written == old(target.written)
      ensures u.Switched? && !u.lost ==> target.written == old(target.written) + old(reader.Pending())
      ensures !client.broken && u.Refused? && u.ok ==>
                client.written
                == old(client.written) + http.reply(resp, First(old(upReader.Pending()), resp.body), true)
      ensures !client.broken && u.Switched? && !u.lost ==>
                client.written == old(client.written) + (http.reply(resp, [], false) + old(upReader.Pending()))
      ensures old(client.broken) ==> client.broken
    {
      if !resp.kind.Switching? {
        var ok := ForwardResponse(resp, upReader, true);
        u := Refused(resp, ok, client.broken || target.broken);
      } else {
        var ok;
        ghost var established;
        ok, established := SwitchProtocols(resp, target, upReader);
        u := Switched(resp, ok, established, client.broken || target.broken);
      }
    }

    // ---- plain requests, http.go:250-385 ----

    /** Skips 1xx responses, http.go:319-333.  It fails only if the target breaks or says
        something that is no response. */
    method FinalResponse(upReader: BufReader) returns (resp: Option<HttpResponse>, ghost interims: seq<HttpResponse>)
      requires upReader.limiter == null && upReader.Ready()
      modifies this`log, upReader`buf, upReader`err, upReader.conn`incoming, upReader.conn`broken
      ensures upReader.Ready()
      ensures Skipped(http, old(upReader.Pending()), interims)
      ensures At(upReader, old(upReader.Pending()), interims, resp)
      ensures resp.Some? ==> resp.value.kind.Final? && upReader.conn.broken == old(upReader.conn.broken)
      ensures log == old(log) + Interims(interims) + [ReadEvent(resp)]
      ensures old(upReader.conn.broken) ==> upReader.conn.broken
    {
      ghost var down, before := upReader.Pending(), log;
      interims := [];
      NothingBehind(before);
      resp := ReadBehind(upReader, down, interims, before);
      while resp.Some? && !resp.value.kind.Final?
        invariant upReader.Ready()
        invariant Skipped(http, down, interims) && At(upReader, down, interims, resp)
        invariant resp.Some? ==> upReader.conn.broken == old(upReader.conn.broken)
        invariant log == before + Interims(interims) + [ReadEvent(resp)]
        invariant old(upReader.conn.broken) ==> upReader.conn.broken
        decreases resp.Some?, |upReader.Pending()|
      {
        InterimNext(http, down, interims, resp.value);
        Assoc(before, Interims(interims), [ResponseRead(resp.value)]);
        interims := interims + [resp.value];
        resp := ReadBehind(upReader, down, interims, before);
      }
    }

    /** The response behind these. */
    method ReadBehind(upReader: BufReader, ghost down: Bytes, ghost interims: seq<HttpResponse>, ghost before: Log)
      returns (resp: Option<HttpResponse>)
      requires upReader.limiter == null && upReader.Ready()
      requires log == before + Interims(interims) && upReader.Pending() == AfterInterims(down, interims)
      modifies this`log, upReader`buf, upReader`err, upReader.conn`incoming, upReader.conn`broken
      ensures upReader.Ready()
      ensures At(upReader, down, interims, resp)
      ensures log == before + Interims(interims) + [ReadEvent(resp)]
      ensures resp.Some? ==> upReader.conn.broken == old(upReader.conn.broken)
      ensures resp.Some? ==> |upReader.Pending()| < |old(upReader.Pending())|
      ensures old(upReader.conn.broken) ==> upReader.conn.broken
    {
      resp := ReadResponse(upReader);
    }

    /** Behind these 1xx responses the target says this, or nothing that is a response. */
    ghost predicate At(upReader: BufReader, down: Bytes, interims: seq<HttpResponse>, resp: Option<HttpResponse>)
      reads upReader, upReader.conn
    {
      var behind := AfterInterims(down, interims);
      match resp
      case Some(p) => http.Response(behind) == resp && upReader.Pending() == Rest(behind, p.head)
      case None => upReader.conn.broken || http.Response(behind).None?
    }

    /** One request and its response.  The route is released whatever fails, and before the
        limiter is told. */
    method ForwardOnce(req: HttpRequest, result: RouteResult, target: Socket) returns (going: bool, ghost x: Exchange)
      requires target != client && Limited() && reader.Steady() && target.written == [] && Routable(result)
      modifies this`log, reader, reader.Parts(), client, target
      ensures Limited()
      ensures log == old(log) + ExchangeTalk(x) + Release(result) + Joined(x.Responded? && x.ok) && target.closed
      ensures Exchanged(http, req, old(reader.Flow()), old(target.incoming), x)
      ensures Asked(http, req, old(reader.Pending()), target.written, x)
      ensures x.lost ==> client.broken || target.broken
      ensures going <==> x.Responded? && x.ok && !Closes(req, x.final)
      ensures going ==> BodyTaken(req, old(Now()), Now())
      ensures !client.broken && (x.Responded? ==> x.ok) ==>
                client.written == old(client.written) + ExchangeText(http, req, old(target.incoming), x)
      ensures old(client.broken) ==> client.broken
    {
      var ok, close;
      ok, close, x := Converse(req, target);
      ReleaseAndTell(result, target, ok);
      going := ok && !close;
    }

    /** The route is given back first, http.go:351-361. */
    method ReleaseAndTell(result: RouteResult, target: Socket, ok: bool)
      requires Routable(result)
      modifies this`log, target
      ensures log == old(log) + Release(result) + Joined(ok) && target.closed
      ensures target.written == old(target.written) && target.broken == old(target.broken)
    {
      CloseRouteResult(result, target);
      if ok {
        log := log + [Lease(Established)];
      }
    }

    /** Up to the release. */
    method Converse(req: HttpRequest, target: Socket) returns (ok: bool, close: bool, ghost x: Exchange)
      requires target != client && Limited() && reader.Steady() && target.written == []
      modifies this`log, reader, reader.Parts(), client, target
      ensures Limited()
      ensures log == old(log) + ExchangeTalk(x)
      ensures Exchanged(http, req, old(reader.Flow()), old(target.incoming), x)
      ensures Asked(http, req, old(reader.Pending()), target.written, x)
      ensures x.lost ==> client.broken || target.broken
      ensures ok <==> x.Responded? && x.ok
      ensures ok ==> close == Closes(req, x.final)
      ensures ok ==> BodyTaken(req, old(Now()), Now())
      ensures !client.broken && (x.Responded? ==> x.ok) ==>
                client.written == old(client.written) + ExchangeText(http, req, old(target.incoming), x)
      ensures old(client.broken) ==> client.broken
    {
      ghost var before := log;
      ok := SendRequest(req, target);
      if ok {
        ok, close, x := Receive(req, target);
        ExchangeAdds(before, x);
      } else {
        close, x := false, SendFailed(client.broken || target.broken);
      }
    }

    /** The response of the target, http.go:313-349. */
    method Receive(req: HttpRequest, target: Socket) returns (ok: bool, close: bool, ghost x: Exchange)
      requires target != client && reader.conn == client
      modifies this`log, target`incoming, target`broken, client`written, client`broken
      ensures !x.SendFailed? && log == old(log) + ResponseTalk(x)
      ensures Heard(http, old(target.incoming), x)
      ensures x.lost ==> client.broken || target.broken
      ensures ok <==> x.Responded? && x.ok
      ensures ok ==> close == Closes(req, x.final) && client.broken == old(client.broken)
      ensures !client.broken && (x.Responded? ==> x.ok) ==>
                client.written == old(client.written) + ExchangeText(http, req, old(target.incoming), x)
      ensures old(client.broken) ==> client.broken
    {
      var upReader := new BufReader(target);
      assert upReader.Pending() == target.incoming;
      var resp;
      ghost var interims;
      resp, interims := FinalResponse(upReader);
      if resp.None? {
        ok, close := false, false;
        x := NoResponse(interims, client.broken || target.broken);
      } else {
        close := Closes(req, resp.value);
        ok := ForwardResponse(resp.value, upReader, close);
        x := Responded(interims, resp.value, ok, client.broken || target.broken);
      }
    }

    /** One turn of the loop up to the next request, from Expect on: the course it takes fits what
        both sides send, and its events and its text are what is seen of it. */
    method ServeOne(req: HttpRequest) returns (going: bool, target: Socket?, ghost c: Course)
      requires Limited() && reader.Steady()
      modifies this`log, reader, reader.Parts(), client
      ensures Limited()
      ensures Took(http, req, c, old(Now()), Now()) && Reached(target, c)
      ensures going <==> Going(req, c)
      ensures target != null ==> fresh(target)
    {
      going, target := false, null;
      ghost var was := Now();
      var ok;
      ok, c := HandleExpectContinue(req);
      if ok {
        ghost var m := Now();
        going, target, c := RouteOne(req);
        ContinueThenOwn(http, req, c, was, m, Now());
      }
    }

    /** handleExpectContinue: 100 Continue is answered here, so that the body is sent; any other
        expectation is refused. */
    method HandleExpectContinue(req: HttpRequest) returns (ok: bool, ghost c: Course)
      modifies this`log, client`written, client`broken
      ensures ok ==>
                && !req.expects.Other? && log == old(log) + ContinueEvents(req)
                && client.written == old(client.written) + ContinueText(http, req)
                && client.broken == old(client.broken)
      ensures !ok ==> (c.ExpectRefused? || c.ContinueLost?) && Took(http, req, c, old(Now()), Now())
    {
      ok, c := true, HostMissing(true);
      if req.expects.Other? {
        var answered := Answer(Status(417), http.wording(417));
        ok, c := false, ExpectRefused(answered);
      } else if req.expects.Continue100? {
        ok := client.Write(http.wording(100));
        log := log + [Continued(ok)];
        if !ok {
          c := ContinueLost;
        }
      }
    }

    /** The target is there if there was a route, got what the course says, and was closed; and
        what is lost is lost for a reason. */
    ghost predicate Reached(target: Socket?, c: Course)
      reads client`broken, if target == null then {} else {target}
    {
      if target == null then !c.Plain? && !c.Upgraded?
      else
        && (c.Plain? || c.Upgraded?) && target.closed && target.written == c.up
        && (Lost(c) ==> client.broken || target.broken)
    }

    /** From the host on. */
    method RouteOne(req: HttpRequest) returns (going: bool, target: Socket?, ghost c: Course)
      requires Limited() && reader.Steady() && !req.expects.Other?
      modifies this`log, reader, reader.Parts(), client
      ensures Limited()
      ensures TookOwn(http, req, c, old(Now()), Now()) && Reached(target, c)
      ensures going <==> Going(req, c)
      ensures target != null ==> fresh(target)
    {
      going, target := false, null;
      if !req.hasHost {
        var ok := Answer(Status(400), http.wording(400));
        c := HostMissing(ok);
        return;
      }
      ghost var was := Now();
      var result;
      result, target := SelectRoute();
      if target == null {
        var ok := Answer(Status(502), http.wording(502));
        c := Unroutable(ok);
      } else {
        going, c := RouteWith(req, result, target, was);
      }
    }

    /** By the kind of the request. */
    method RouteWith(req: HttpRequest, result: RouteResult, target: Socket, ghost was: View)
      returns (going: bool, ghost c: Course)
      requires target != client && Limited() && reader.Steady() && target.written == [] && Routable(result)
      requires !req.expects.Other? && req.hasHost
      requires Now() == was.(log := was.log + [Lease(Selected(result))])
      modifies this`log, reader, reader.Parts(), client, target
      ensures Limited()
      ensures TookOwn(http, req, c, was, Now()) && Reached(target, c)
      ensures going <==> Going(req, c)
    {
      if req.upgrade {
        going := false;
        c := UpgradeOne(req, result, target, was);
      } else {
        going, c := PlainOne(req, result, target, was);
      }
    }

    /** The course of an upgrade; `was` is before the route was asked for. */
    method UpgradeOne(req: HttpRequest, result: RouteResult, target: Socket, ghost was: View) returns (ghost c: Course)
      requires target != client && Limited() && reader.Steady() && target.written == [] && Routable(result)
      requires !req.expects.Other? && req.hasHost && req.upgrade
      requires Now() == was.(log := was.log + [Lease(Selected(result))])
      modifies this`log, reader, reader.Parts(), client, target
      ensures Limited()
      ensures c.Upgraded? && TookOwn(http, req, c, was, Now()) && Reached(target, c)
    {
      ghost var down := target.incoming;
      ghost var u := ServeHTTPUpgrade(req, result, target);
      c := Upgraded(result, down, target.written, u);
      UpgradeTook(http, req, result, down, target.written, u, was, Now());
    }

    /** The course of a plain request. */
    method PlainOne(req: HttpRequest, result: RouteResult, target: Socket, ghost was: View)
      returns (going: bool, ghost c: Course)
      requires target != client && Limited() && reader.Steady() && target.written == [] && Routable(result)
      requires !req.expects.Other? && req.hasHost && !req.upgrade
      requires Now() == was.(log := was.log + [Lease(Selected(result))])
      modifies this`log, reader, reader.Parts(), client, target
      ensures Limited()
      ensures c.Plain? && TookOwn(http, req, c, was, Now()) && Reached(target, c)
      ensures going <==> Going(req, c)
    {
      ghost var down := target.incoming;
      ghost var x;
      going, x := ForwardOnce(req, result, target);
      c := Plain(result, down, target.written, x);
      PlainTook(http, req, result, down, target.written, x, was, Now());
    }

    // ---- the keep-alive loop ----

    /** One more request whose head is read, behind those that let it follow. */
    method TakeTurn(req: HttpRequest, ghost start: View, ghost past: seq<Turn>, ghost was: View)
      returns (going: bool, ghost served: seq<Turn>)
      requires Limited() && reader.Steady()
      requires OpenAt(http, start, past, was) && (past != [] ==> !req.connect)
      requires HeadTaken(http, req, was, Now())
      modifies this`log, reader, reader.Parts(), client
      ensures Limited()
      ensures |served| == |past| + 1 && served[..|past|] == past
      ensures served[|past|].req == req && served[|past|].begun == was.flow
      ensures if going then OpenAt(http, start, served, Now()) else OverAt(http, start, served, Stopped, Now())
    {
      ghost var w := Now();
      var target;
      ghost var c;
      going, target, c := ServeOne(req);
      ghost var t := Turn(req, was.flow, c);
      served := past + [t];
      if going {
        TurnGoesOn(http, start, past, t, was, w, Now());
      } else {
        TurnStops(http, start, past, t, was, w, Now());
      }
    }

    /** Between two requests, http.go:367-383. */
    method NextRequest() returns (next: Option<HttpRequest>, ghost ending: Ending)
      requires Limited() && reader.limiter.seen == [] && Counts(reader.Flow())
      modifies this`log, reader`buf, reader`err, reader.Parts(), client`incoming, client`broken, client`written
      ensures Limited()
      ensures match next
              case Some(req) => HeadTaken(http, req, old(Now()), Now()) && reader.Steady() && !req.connect
              case None =>
                && (ending.Unread? || ending.Oversize? || ending.Misused?) && ending.begun == old(reader.Flow())
                && HeadEnds(http, ending) && log == old(log) + EndingEvents(ending)
                && (!client.broken ==> client.written == old(client.written) + EndingText(http, ending))
                && (Cut(ending) ==> client.broken)
      ensures old(client.broken) ==> client.broken
    {
      ghost var was := Now();
      var head := ReadHttpRequest();
      if head.Good? && !head.req.connect {
        next, ending := Some(head.req), Watched;
      } else {
        next := None;
        ending := EndWith(head, was);
      }
    }

    /** The reply, if any, to a head that ends the session. */
    method EndWith(head: Head, ghost was: View) returns (ghost ending: Ending)
      requires head.Good? ==> head.req.connect && HeadTaken(http, head.req, was, Now())
      requires head.Malformed? ==> client.broken || http.Request(was.flow.pending).None? || was.flow.waiting
      requires head.TooLarge? ==> HeaderScanner.Oversize(was.flow.counted, LIMIT)
      requires !head.Good? ==> log == was.log + [HeadFailed(head.TooLarge?)] && client.written == was.written
      modifies this`log, client`broken, client`written
      ensures (ending.Unread? || ending.Oversize? || ending.Misused?) && ending.begun == was.flow
      ensures HeadEnds(http, ending) && log == was.log + EndingEvents(ending)
      ensures !client.broken ==> client.written == was.written + EndingText(http, ending)
      ensures (Cut(ending) ==> client.broken) && (old(client.broken) ==> client.broken)
    {
      match head {
        case Good(req) =>
          var ok := Answer(Status(400), http.wording(400));
          ending := Misused(was.flow, req, ok);
        case Malformed =>
          ending := Unread(was.flow, client.broken);
        case TooLarge =>
          var ok := Answer(Status(431), http.wording(431));
          ending := Ending.Oversize(was.flow, ok);
      }
    }

    /** The next request and its answer, or the end. */
    method GoOn(ghost start: View, ghost past: seq<Turn>)
      returns (going: bool, ghost served: seq<Turn>, ghost ending: Ending)
      requires Limited() && OpenAt(http, start, past, Now()) && past != []
      modifies this`log, reader, reader.Parts(), client
      ensures Limited()
      ensures if going then OpenAt(http, start, served, Now()) && |served| == |past| + 1
              else OverAt(http, start, served, ending, Now()) && !ending.Watched?
      ensures served != [] && served[0] == past[0]
    {
      BeginRequest();
      ghost var was := Now();
      var next;
      next, ending := NextRequest();
      match next {
        case None =>
          going, served := false, past;
          SessionEnds(http, start, past, ending, was, Now());
        case Some(req) =>
          going, served := TakeTurn(req, start, past, was);
          assert served[0] == served[..|past|][0];
          ending := Stopped;
      }
    }

    /** The keep-alive loop, watched for `turns` requests after the first.  Each request begins
        where the one before it ended; each takes a course that fits what was sent; the events
        are those of the courses in order, and so is what the client gets; and the loop ends only
        for the reasons given. */
    method HandleHTTPPlain(first: HttpRequest, turns: nat, ghost start: View)
      returns (ghost served: seq<Turn>, ghost ending: Ending)
      requires Limited() && reader.Steady() && HeadTaken(http, first, start, Now())
      modifies this`log, reader, reader.Parts(), client
      ensures OverAt(http, start, served, ending, Now()) && served[0].req == first && served[0].begun == start.flow
      ensures ending.Watched? ==> |served| == turns + 1
    {
      var going;
      Opens(http, start);
      going, served := TakeTurn(first, start, [], start);
      ending := Stopped;
      var i := 0;
      while going && i < turns
        invariant i <= turns && Limited() && served != [] && served[0].req == first && served[0].begun == start.flow
        invariant if going then OpenAt(http, start, served, Now()) && |served| == i + 1
                  else OverAt(http, start, served, ending, Now()) && !ending.Watched?
      {
        going, served, ending := GoOn(start, served);
        i := i + 1;
      }
      if going {
        ending := Watched;
        WatchedEnough(http, start, served, Now());
      }
    }

    // ---- a whole HTTP connection, http.go:125-165 ----

    /** The first request decides between the loop and a tunnel; without one the client is told
        why.  Whatever happens, every route is settled when the connection is closed. */
    method HandleHTTPProxy(turns: nat) returns (target: Socket?, ghost p: Proxied, ghost downstream: Bytes)
      requires Limited() && Untouched() && log == []
      modifies this`log, reader, reader.Parts(), client
      ensures log == ProxiedEvents(p) && Settled(log) && client.closed
      ensures ProxiedFits(old(Now()), target, p, downstream)
      ensures target != null ==> fresh(target)
    {
      target, p, downstream := ServeProxy(turns);
      SessionTheorems.ProxiedSettles(p);
      Close(old(Now()), target, p, downstream);
    }

    /** The deferred close changes nothing else. */
    method Close(ghost start: View, ghost target: Socket?, ghost p: Proxied, ghost downstream: Bytes)
      requires target != client && ProxiedFits(start, target, p, downstream)
      modifies client`closed
      ensures client.closed && ProxiedFits(start, target, p, downstream)
    {
      client.closed := true;
    }

    /** Up to the deferred close. */
    method ServeProxy(turns: nat) returns (target: Socket?, ghost p: Proxied, ghost downstream: Bytes)
      requires Limited() && Untouched() && log == []
      modifies this`log, reader, reader.Parts(), client
      ensures log == ProxiedEvents(p) && SessionTheorems.ProxiedOk(p)
      ensures ProxiedFits(old(Now()), target, p, downstream)
      ensures target != null ==> fresh(target)
    {
      BeginRequest();
      ghost var start := Now();
      assert start.flow.counted == start.flow.pending;
      var head := ReadHttpRequest();
      match head {
        case Good(req) =>
          target, p, downstream := Dispatch(req, turns, start);
        case _ =>
          target, downstream := null, [];
          p := Reject(head.TooLarge?, start);
      }
    }

    /** A first head that cannot be read. */
    method Reject(tooLarge: bool, ghost start: View) returns (ghost p: Proxied)
      requires log == [HeadFailed(tooLarge)] && client.written == start.written
      requires if tooLarge then HeaderScanner.Oversize(start.flow.pending, LIMIT)
               else client.broken || http.Request(start.flow.pending).None?
      modifies this`log, client`written, client`broken
      ensures p.Rejected? && log == ProxiedEvents(p) && ProxiedFits(start, null, p, [])
    {
      var code := if tooLarge then 431 else 400;
      var ok := Answer(Status(code), http.wording(code));
      p := Rejected(tooLarge, ok);
    }

    /** By the method of the first request; what was read ahead goes to the tunnel. */
    method Dispatch(req: HttpRequest, turns: nat, ghost start: View)
      returns (target: Socket?, ghost p: Proxied, ghost downstream: Bytes)
      requires Limited() && reader.Steady() && HeadTaken(http, req, start, Now()) && start.log == []
      requires start.flow == Inflow(start.flow.pending, start.flow.pending, false)
      modifies this`log, reader, reader.Parts(), client
      ensures log == ProxiedEvents(p) && SessionTheorems.ProxiedOk(p)
      ensures ProxiedFits(start, target, p, downstream)
      ensures target != null ==> fresh(target)
    {
      if req.connect {
        target, p, downstream := TunnelFrom(req, start);
      } else {
        target, downstream := null, [];
        p := ServePlain(req, turns, start);
      }
    }

    /** Any other request and those that follow it. */
    method ServePlain(req: HttpRequest, turns: nat, ghost start: View) returns (ghost p: Proxied)
      requires Limited() && reader.Steady() && HeadTaken(http, req, start, Now()) && start.log == [] && !req.connect
      requires start.flow == Inflow(start.flow.pending, start.flow.pending, false)
      modifies this`log, reader, reader.Parts(), client
      ensures log == ProxiedEvents(p) && SessionTheorems.ProxiedOk(p)
      ensures ProxiedFits(start, null, p, [])
    {
      ghost var served, ending := HandleHTTPPlain(req, turns, start);
      p := Serving(served, ending);
      SessionTheorems.FramedWellRouted(http, start.flow, served);
      NothingBefore(ProxiedEvents(p));
    }

    /** A CONNECT and what was read ahead with it. */
    method TunnelFrom(req: HttpRequest, ghost start: View)
      returns (target: Socket?, ghost p: Proxied, ghost downstream: Bytes)
      requires reader.conn == client && req.connect && HeadTaken(http, req, start, Now()) && start.log == []
      modifies this`log, reader`buf, client
      ensures log == ProxiedEvents(p) && SessionTheorems.ProxiedOk(p)
      ensures ProxiedFits(start, target, p, downstream)
      ensures target != null ==> fresh(target)
    {
      ghost var rest := reader.Pending();
      var early := reader.DrainBuffered();
      assert early + client.incoming == rest;
      ghost var c;
      target, c, downstream := HandleHTTPConnect(req, early);
      p := Connecting(req, c);
    }

    /** What became of the connection fits what the client sent, and a target of a tunnel gets
        exactly what follows the request. */
    ghost predicate ProxiedFits(start: View, target: Socket?, p: Proxied, downstream: Bytes)
      reads this`log, reader`buf, reader`err, reader.conn`incoming, reader.Parts(), client`written, client`broken
      reads if target == null then {} else {target}
    {
      var s := start.flow.pending;
      match p
      case Rejected(tooLarge, ok) =>
        && target == null && (!ok ==> client.broken)
        && (if tooLarge then HeaderScanner.Oversize(s, LIMIT) else client.broken || http.Request(s).None?)
        && (!client.broken ==> client.written == start.written + http.wording(if tooLarge then 431 else 400))
      case Connecting(req, c) =>
        && http.Request(s) == Some(req) && req.connect && HeadFits(start.flow, req.head)
        && ConnectFits(req, s[req.head..], start.written, target, c, downstream)
      case Serving(served, ending) =>
        && target == null && OverAt(http, start, served, ending, Now())
        && !served[0].req.connect && served[0].begun == Inflow(s, s, false)
    }

    ghost predicate ConnectFits(req: HttpRequest, rest: Bytes, written: Bytes, target: Socket?, c: HttpConnect,
                                downstream: Bytes)
      reads client`written, client`broken, if target == null then {} else {target}
    {
      && (c.NoHost? <==> !req.hasHost) && (c.Tunnelling? <==> target != null) && (!c.ok ==> client.broken)
      && match c
         case Tunnelling(r, ok, tunnelled) =>
           && target.closed && Routable(r) && (tunnelled || client.broken || target.broken)
           && target.written <= rest
           && (!client.broken && !target.broken ==>
                 target.written == rest && client.written == written + http.wording(200) + downstream)
         case _ =>
           !client.broken ==> client.written == written + http.wording(if c.NoHost? then 400 else 502)
    }
  }
}
