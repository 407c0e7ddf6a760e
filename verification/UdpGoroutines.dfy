/** The two loops of a UDP association as code (udp.go:190-351).  One goroutine serves the
    client's packets, the other the targets'; what each leaves to the other happens at any
    time in between. */
module UdpGoroutines {
  import opened Common
  import opened Socks5Codec
  import opened Udp

  /** A packet on the outward socket, and whether a write to the client would succeed. */
  datatype Reply = Reply(src: Endpoint, data: Bytes, written: bool)

  class UdpAssociation {
    const clientIP: Ip
    var client: Option<Endpoint>
    var targets: set<Key>
    var sentPackets: nat
    var recvPackets: nat
    ghost var arrivals: seq<Packet>    // the client's socket, in the order judged
    ghost var verdicts: seq<bool>
    ghost var served: nat              // arrivals dealt with
    ghost var outgoing: seq<Outgoing>  // written to the outward socket
    ghost var recorded: nat            // writes that recordTarget has seen
    ghost var looks: seq<Look>         // the outward socket
    ghost var delivered: seq<Delivery> // written to the client

    ghost predicate Valid()
      reads `client, `targets, `arrivals, `verdicts, `served, `outgoing, `recorded, `looks, `delivered
    {
      SendsRight() && RecordsRight() && DeliversRight() && LookedInTime(looks, arrivals, clientIP)
    }

    /** The client is the first that came from its address and every packet is judged by that;
        what went out is what the packets call for, in order and once. */
    ghost predicate SendsRight()
      reads `client, `arrivals, `verdicts, `served, `outgoing
    {
      && Judged(arrivals, verdicts, clientIP, client)
      && served <= |arrivals| <= served + 1
      && outgoing == Forwarded(arrivals[..served], verdicts[..served])
    }

    /** The targets are where it went. */
    ghost predicate RecordsRight()
      reads `targets, `outgoing, `recorded
    {
      && recorded <= |outgoing| <= recorded + 1
      && targets == Recorded(Keys(outgoing)[..recorded])
    }

    /** Only they are let through to the client. */
    ghost predicate DeliversRight()
      reads `client, `outgoing, `looks, `delivered
    {
      Looked(looks, Keys(outgoing), client) && delivered == LetThrough(looks)
    }

    /** The client's loop is between two packets. */
    ghost predicate Resting()
      reads `arrivals, `served, `outgoing, `recorded, `sentPackets
    {
      served == |arrivals| && recorded == |outgoing| == sentPackets
    }

    constructor (clientIP: Ip)
      ensures Valid() && Resting() && this.clientIP == clientIP && client == None && targets == {}
      ensures recvPackets == 0 && arrivals == [] && looks == [] && delivered == []
    {
      this.clientIP, client, targets, sentPackets, recvPackets := clientIP, None, {}, 0, 0;
      arrivals, verdicts, served, outgoing, recorded, looks, delivered := [], [], 0, [], 0, [], [];
    }

    /** What the other goroutines do while the client's packets are served. */
    method OthersDeliver()
      requires Valid()
      modifies this`looks, this`delivered, this`recvPackets
      ensures Valid() && old(looks) <= looks
    {
    }

    /** What they do while the targets' packets are served. */
    method OthersSend()
      requires Valid()
      modifies this`client, this`targets, this`sentPackets
      modifies this`arrivals, this`verdicts, this`served, this`outgoing, this`recorded
      ensures Valid() && (old(client).Some? ==> client == old(client))
      ensures old(arrivals) <= arrivals && old(outgoing) <= outgoing && old(recorded) <= recorded
      ensures old(Known()) <= Known()
    {
    }

    /** The destinations recorded. */
    ghost function Known(): seq<Key>
      reads `outgoing, `recorded
    {
      if recorded <= |outgoing| then Keys(outgoing)[..recorded] else []
    }

    // ---- the client's side ----

    /** Notes the verdict on a packet whose source the client is by now compared with. */
    ghost method Judge(packet: Packet, ok: bool, before: Option<Endpoint>)
      requires Judged(arrivals, verdicts, clientIP, before) && client == Bound(clientIP, before, packet.src)
      requires ok <==> IpEqual(packet.src.ip, clientIP) && client.value.port == packet.src.port
      requires LookedInTime(looks, arrivals, clientIP)
      modifies this`arrivals, this`verdicts
      ensures Judged(arrivals, verdicts, clientIP, client) && LookedInTime(looks, arrivals, clientIP)
      ensures arrivals == old(arrivals) + [packet] && verdicts == old(verdicts) + [ok]
    {
      JudgeNext(arrivals, verdicts, clientIP, before, packet, ok);
      arrivals, verdicts := arrivals + [packet], verdicts + [ok];
    }

    /** acceptClient: the address at once, the port from the first packet on. */
    method AcceptClient(packet: Packet) returns (ok: bool)
      requires Valid() && served == |arrivals|
      modifies this`client, this`arrivals, this`verdicts, this`looks, this`delivered, this`recvPackets
      ensures Valid() && arrivals == old(arrivals) + [packet] && verdicts == old(verdicts) + [ok]
      ensures client == Bound(clientIP, old(client), packet.src)
    {
      var src := packet.src;
      if !IpEqual(src.ip, clientIP) {
        ok := Settled(packet, false);
        return;
      }
      var bound := client;
      if bound.Some? {
        ok := Settled(packet, bound.value.port == src.port);
        return;
      }
      OthersDeliver();
      ok := BindClient(packet);
    }

    /** No need to bind: the address is wrong, or a client is bound. */
    method Settled(packet: Packet, verdict: bool) returns (ok: bool)
      requires Valid() && served == |arrivals| && client == Bound(clientIP, client, packet.src)
      requires verdict <==> IpEqual(packet.src.ip, clientIP) && client.value.port == packet.src.port
      modifies this`arrivals, this`verdicts
      ensures Valid() && arrivals == old(arrivals) + [packet] && verdicts == old(verdicts) + [ok] && ok == verdict
    {
      ok := verdict;
      Judge(packet, ok, client);
      assert arrivals[..served] == old(arrivals)[..served] && verdicts[..served] == old(verdicts)[..served];
    }

    /** The section under the lock, udp.go:309-316. */
    method BindClient(packet: Packet) returns (ok: bool)
      requires Valid() && served == |arrivals| && IpEqual(packet.src.ip, clientIP)
      modifies this`client, this`arrivals, this`verdicts
      ensures Valid() && arrivals == old(arrivals) + [packet] && verdicts == old(verdicts) + [ok]
      ensures client == Bound(clientIP, old(client), packet.src)
      ensures ok <==> client.value.port == packet.src.port
    {
      ghost var before := client;
      if client.None? {
        client := Some(packet.src);
      }
      ok := client.value.port == packet.src.port;
      Judge(packet, ok, before);
      assert arrivals[..served] == old(arrivals)[..served] && verdicts[..served] == old(verdicts)[..served];
    }

    /** recordTarget, for the last write. */
    method RecordTarget(dst: Endpoint)
      requires RecordsRight() && recorded < |outgoing| && outgoing[recorded].dst == dst
      modifies this`targets, this`recorded
      ensures RecordsRight() && recorded == old(recorded) + 1
    {
      RecordOneMore(Keys(outgoing), recorded);
      if |targets| < MAX_TARGETS {
        targets := targets + {KeyOf(dst)};
      }
      recorded := recorded + 1;
    }

    /** One packet of the client, udp.go:218-239: Valid says that it is sent on exactly when it
        is accepted, is a datagram for some host, and the network does its part. */
    method ServeClientPacket(packet: Packet)
      requires Valid() && Resting()
      modifies this
      ensures Valid() && Resting()
      ensures arrivals == old(arrivals) + [packet] && client == Bound(clientIP, old(client), packet.src)
    {
      var ok := AcceptClient(packet);
      var sent := Conclude(packet, ok);
      if sent {
        CountSent(packet.resolves.value);
      }
    }

    /** The packet just judged is written to its destination, or dropped. */
    method Conclude(packet: Packet, ok: bool) returns (sent: bool)
      requires Valid() && served + 1 == |arrivals| && arrivals[served] == packet && verdicts[served] == ok
      requires recorded == |outgoing|
      modifies this`outgoing, this`served
      ensures Valid() && served == |arrivals|
      ensures |outgoing| == recorded + if sent then 1 else 0
      ensures sent ==> packet.resolves == Some(outgoing[recorded].dst)
    {
      sent := ToBeSent(packet, ok);
      SentForMeans(packet, ok, served);
      Write(SentFor(packet, ok, served));
    }

    method ToBeSent(packet: Packet, ok: bool) returns (send: bool)
      ensures send <==> Due(packet, ok)
    {
      if !ok {
        return false;
      }
      var parsed := ParseUdp(packet.data);
      if parsed.Err? || parsed.value.host == Domain([]) {
        return false;
      }
      return packet.resolves.Some? && packet.written;
    }

    ghost method Write(out: seq<Outgoing>)
      requires Valid() && served + 1 == |arrivals| && |out| <= 1 && recorded == |outgoing|
      requires out == SentFor(arrivals[served], verdicts[served], served)
      modifies this`outgoing, this`served
      ensures Valid() && served == old(served) + 1 && outgoing == old(outgoing) + out
    {
      ForwardedNext(arrivals, verdicts, served);
      KeysPrefix(outgoing, outgoing + out, recorded, recorded);
      KeysGrow(outgoing, out);
      LookedStays(looks, Keys(outgoing), Keys(outgoing + out), client);
      outgoing, served := outgoing + out, served + 1;
    }

    /** After a write. */
    method CountSent(dst: Endpoint)
      requires Valid() && recorded + 1 == |outgoing| && outgoing[recorded].dst == dst
      modifies this`targets, this`recorded, this`sentPackets, this`looks, this`delivered, this`recvPackets
      ensures Valid() && recorded == |outgoing| && sentPackets == old(sentPackets) + 1
    {
      OthersDeliver();
      RecordTarget(dst);
      OthersDeliver();
      sentPackets := sentPackets + 1;
    }

    /** The loop over what the socket brings.  It serves every packet in turn and stops early
        only when the association is over or its socket closed. */
    method ClientToTarget(input: seq<Read<Packet>>) returns (n: nat)
      requires Valid() && Resting()
      modifies this
      ensures Valid() && Resting() && n <= |input|
      ensures arrivals == old(arrivals) + Values(input[..n])
      ensures UpToTheEnd(input, n)
      ensures old(client).Some? ==> client == old(client)
    {
      n := 0;
      var over := false;
      while n < |input| && !over
        invariant NoneEnds(input, n) && Valid() && Resting()
        invariant arrivals == old(arrivals) + Values(input[..n])
        invariant over ==> n < |input| && Ends(input[n])
        invariant old(client).Some? ==> client == old(client)
        decreases |input| - n, !over
      {
        n, over := ClientNext(input, n, old(arrivals));
      }
    }

    method ClientNext(input: seq<Read<Packet>>, n: nat, ghost before: seq<Packet>) returns (next: nat, over: bool)
      requires Valid() && Resting() && n < |input| && NoneEnds(input, n)
      requires arrivals == before + Values(input[..n])
      modifies this
      ensures Valid() && Resting() && NoneEnds(input, next)
      ensures (over <==> Ends(input[n])) && next == if over then n else n + 1
      ensures arrivals == before + Values(input[..next])
      ensures old(client).Some? ==> client == old(client)
    {
      over := ClientTurn(input[n]);
      next := n;
      if !over {
        ArrivalsNext(input, n, before, old(arrivals), arrivals);
        next := n + 1;
      }
    }

    method ClientTurn(read: Read<Packet>) returns (over: bool)
      requires Valid() && Resting()
      modifies this
      ensures Valid() && Resting() && (over <==> Ends(read))
      ensures arrivals == if read.Got? then old(arrivals) + [read.value] else old(arrivals)
      ensures old(client).Some? ==> client == old(client)
    {
      OthersDeliver();
      over := read.SocketClosed? || read.Over?;
      if read.Got? && !over {
        ServeClientPacket(read.value);
      }
    }

    // ---- the targets' side ----

    /** acceptTarget: only addresses that were sent to, of the first 1024. */
    method AcceptTarget(src: Endpoint) returns (ok: bool)
      requires RecordsRight()
      ensures ok <==> AmongFirst(Keys(outgoing)[..recorded], KeyOf(src))
      ensures ok <==> KeyOf(src) in Recorded(Keys(outgoing)[..recorded])
    {
      ok := KeyOf(src) in targets;
      RecordedMeans(Keys(outgoing)[..recorded], KeyOf(src));
    }

    /** One packet from outside, udp.go:269-289: Valid says that it is delivered exactly when a
        client was bound, its source was among the first destinations by then, and it can be
        encoded and written. */
    method ServeTargetPacket(reply: Reply, ghost heard: nat, ghost known: seq<Key>)
      requires Valid() && heard <= |arrivals| && known <= Known()
      modifies this
      ensures Valid() && (old(client).Some? ==> client == old(client))
      ensures recvPackets - old(recvPackets) == |delivered| - |old(delivered)|
      ensures LooksAt(old(looks), looks, reply, heard, known)
      ensures heard <= |arrivals| && known <= Known()
      ensures old(client).Some? ==> looks[|looks| - 1].bound == old(client)
    {
      var to := client;
      if to.None? {
        Drop(reply);
      } else {
        ServeBound(reply, to.value, heard, known);
      }
    }

    /** A client is bound. */
    method ServeBound(reply: Reply, to: Endpoint, ghost heard: nat, ghost known: seq<Key>)
      requires Valid() && client == Some(to) && heard <= |arrivals| && known <= Known()
      modifies this
      ensures Valid() && client == old(client)
      ensures recvPackets - old(recvPackets) == |delivered| - |old(delivered)|
      ensures LooksAt(old(looks), looks, reply, heard, known) && looks[|looks| - 1].bound == Some(to)
      ensures heard <= |arrivals| && known <= Known()
    {
      var ok;
      ghost var seen;
      ok, seen := LookUpTarget(reply.src, heard, known);
      Answer(reply, ok, to, heard, seen);
    }

    method Answer(reply: Reply, ok: bool, to: Endpoint, ghost heard: nat, ghost seen: seq<Key>)
      requires Valid() && client == Some(to) && seen <= Keys(outgoing) && heard <= |arrivals|
      requires ok <==> KeyOf(reply.src) in Recorded(seen)
      modifies this`looks, this`delivered, this`recvPackets
      ensures Valid() && Known() == old(Known())
      ensures looks == old(looks) + [Look(reply.src, reply.data, reply.written, Some(to), heard, seen)]
      ensures recvPackets - old(recvPackets) == |delivered| - |old(delivered)|
    {
      Deliver(reply, ok, to, heard, seen);
      LooksInTimeStill(old(looks), looks[|looks| - 1], arrivals, clientIP);
    }

    /** No client is bound yet. */
    method Drop(reply: Reply)
      requires Valid() && client == None
      modifies this`looks, this`delivered
      ensures Valid() && |delivered| == |old(delivered)|
      ensures looks == old(looks) + [Look(reply.src, reply.data, reply.written, None, |arrivals|, [])]
    {
      NoteLook(Look(reply.src, reply.data, reply.written, None, |arrivals|, []));
    }

    /** `seen` is what had been recorded when the source was looked up. */
    method LookUpTarget(src: Endpoint, ghost heard: nat, ghost known: seq<Key>) returns (ok: bool, ghost seen: seq<Key>)
      requires Valid() && client.Some? && heard <= |arrivals| && known <= Known()
      modifies this`client, this`targets, this`sentPackets
      modifies this`arrivals, this`verdicts, this`served, this`outgoing, this`recorded
      ensures Valid() && client == old(client) && heard <= |arrivals| && known <= Known()
      ensures known <= seen <= Keys(outgoing)
      ensures ok <==> KeyOf(src) in Recorded(seen)
    {
      OthersSend();
      ok, seen := LookThenGoOn(src, heard, known);
    }

    method LookThenGoOn(src: Endpoint, ghost heard: nat, ghost known: seq<Key>) returns (ok: bool, ghost seen: seq<Key>)
      requires Valid() && client.Some? && heard <= |arrivals| && known <= Known()
      modifies this`client, this`targets, this`sentPackets
      modifies this`arrivals, this`verdicts, this`served, this`outgoing, this`recorded
      ensures Valid() && client == old(client) && heard <= |arrivals| && known <= Known()
      ensures known <= seen <= Keys(outgoing)
      ensures ok <==> KeyOf(src) in Recorded(seen)
    {
      seen := Known();
      ok := AcceptTarget(src);
      OthersSend();
      KeysPrefix(old(outgoing), outgoing, old(recorded), recorded);
    }

    /** The look is over, and the packet written or dropped. */
    ghost method NoteLook(l: Look)
      requires DeliversRight() && l.seen <= Keys(outgoing) && (l.bound.Some? ==> client == l.bound)
      modifies this`looks, this`delivered
      ensures DeliversRight() && looks == old(looks) + [l]
      ensures |delivered| == |old(delivered)| + if Passes(l) then 1 else 0
    {
      LetThroughNext(looks, l);
      PassMeans(l);
      looks, delivered := looks + [l], delivered + Pass(l);
    }

    method Deliver(reply: Reply, ok: bool, to: Endpoint, ghost heard: nat, ghost seen: seq<Key>)
      requires DeliversRight() && client == Some(to) && seen <= Keys(outgoing)
      requires ok <==> KeyOf(reply.src) in Recorded(seen)
      modifies this`looks, this`delivered, this`recvPackets
      ensures DeliversRight()
      ensures looks == old(looks) + [Look(reply.src, reply.data, reply.written, Some(to), heard, seen)]
      ensures recvPackets - old(recvPackets) == |delivered| - |old(delivered)|
    {
      ghost var look := Look(reply.src, reply.data, reply.written, Some(to), heard, seen);
      var write := ToBeDelivered(reply, ok, look);
      NoteLook(look);
      CountDelivered(write);
    }

    method CountDelivered(write: bool)
      modifies this`recvPackets
      ensures recvPackets == old(recvPackets) + if write then 1 else 0
    {
      if write {
        recvPackets := recvPackets + 1;
      }
    }

    method ToBeDelivered(reply: Reply, ok: bool, ghost look: Look) returns (write: bool)
      requires look.src == reply.src && look.data == reply.data && look.written == reply.written && look.bound.Some?
      requires ok <==> KeyOf(look.src) in Recorded(look.seen)
      ensures write <==> Passes(look)
    {
      if !ok {
        return false;
      }
      var packet := BuildUdp(reply.src.ip, reply.src.port, reply.data);
      return packet.Ok? && reply.written;
    }

    method TargetToClient(input: seq<Read<Reply>>) returns (n: nat)
      requires Valid()
      modifies this
      ensures Valid() && n <= |input| && (old(client).Some? ==> client == old(client))
      ensures LooksAtAll(old(looks), looks, Values(input[..n]), |old(arrivals)|, old(Known()))
      ensures UpToTheEnd(input, n)
      ensures recvPackets - old(recvPackets) == |delivered| - |old(delivered)|
    {
      n := 0;
      var over := false;
      ghost var heard, known := |arrivals|, Known();
      while n < |input| && !over
        invariant NoneEnds(input, n) && Valid() && (old(client).Some? ==> client == old(client))
        invariant heard <= |arrivals| && known <= Known()
        invariant LooksAtAll(old(looks), looks, Values(input[..n]), heard, known)
        invariant over ==> n < |input| && Ends(input[n])
        invariant recvPackets - old(recvPackets) == |delivered| - |old(delivered)|
        decreases |input| - n, !over
      {
        n, over := TargetNext(input, n, old(looks), heard, known);
      }
    }

    method TargetNext(input: seq<Read<Reply>>, n: nat, ghost before: seq<Look>, ghost heard: nat, ghost known: seq<Key>)
      returns (next: nat, over: bool)
      requires Valid() && heard <= |arrivals| && known <= Known() && n < |input| && NoneEnds(input, n)
      requires LooksAtAll(before, looks, Values(input[..n]), heard, known)
      modifies this
      ensures Valid() && heard <= |arrivals| && known <= Known() && NoneEnds(input, next)
      ensures (over <==> Ends(input[n])) && next == if over then n else n + 1
      ensures LooksAtAll(before, looks, Values(input[..next]), heard, known)
      ensures old(client).Some? ==> client == old(client)
      ensures recvPackets - old(recvPackets) == |delivered| - |old(delivered)|
    {
      over := TargetTurn(input[n], heard, known);
      next := n;
      if !over {
        LooksAtOneMore(input, n, before, old(looks), looks, heard, known);
        next := n + 1;
      }
    }

    method TargetTurn(read: Read<Reply>, ghost heard: nat, ghost known: seq<Key>) returns (over: bool)
      requires Valid() && heard <= |arrivals| && known <= Known()
      modifies this
      ensures Valid() && (over <==> Ends(read))
      ensures old(client).Some? ==> client == old(client)
      ensures heard <= |arrivals| && known <= Known()
      ensures if read.Got? then LooksAt(old(looks), looks, read.value, heard, known) else looks == old(looks)
      ensures recvPackets - old(recvPackets) == |delivered| - |old(delivered)|
    {
      OthersSend();
      over := read.SocketClosed? || read.Over?;
      if read.Got? && !over {
        ServeTargetPacket(read.value, heard, known);
      }
    }

    // ---- what holds whatever the two loops did ----

    /** Whatever reached the client came from one of the first 1024 destinations written to for
        it, and written to before the look that let it through; it went to the first that spoke
        from its address, and reads back as where it came from and what it said. */
    lemma DeliveredMeans(d: Delivery)
      requires Valid() && d in delivered
      ensures AmongFirst(Keys(outgoing), KeyOf(d.src))
      ensures exists o :: o in outgoing && o.dst.port == d.src.port && IpEqual(o.dst.ip, d.src.ip)
      ensures exists l :: l in looks && Pass(l) == [d] && l.seen <= Keys(outgoing) && AmongFirst(l.seen, KeyOf(d.src))
      ensures exists i :: IsFirst(arrivals, clientIP, i) && arrivals[i].src == d.to
      ensures ParseUdp(d.packet) == Ok(Datagram(Canonical(d.src.ip), d.src.port % 0x1_0000, d.payload))
    {
      LetThroughMeans(looks, d);
      var l :| l in looks && Pass(l) == [d];
      RecordedMeans(l.seen, KeyOf(d.src));
      AmongFirstOfMore(l.seen, Keys(outgoing), KeyOf(d.src));
      var i :| 0 <= i < |outgoing| && Keys(outgoing)[i] == KeyOf(d.src);
      assert outgoing[i] in outgoing;
      KeysTellApart(outgoing[i].dst, d.src);
      UdpRoundTrip(d.src.ip, d.src.port, d.payload);
    }

    /** Whatever was sent on is the payload of a packet from the client's address and first port,
        to where that packet's destination resolves, and no packet is sent on twice. */
    lemma OutgoingMeans(i: nat)
      requires Valid() && i < |outgoing|
      ensures FromClient(arrivals, clientIP, outgoing[i].arrival)
      ensures Carries(outgoing[i], arrivals[outgoing[i].arrival])
      ensures forall j :: 0 <= j < |outgoing| && outgoing[j].arrival == outgoing[i].arrival ==> j == i
    {
      var some, ok := arrivals[..served], verdicts[..served];
      ForwardedSends(some, ok, i);
      SendsStays(outgoing[i], arrivals, verdicts, served);
      assert verdicts[outgoing[i].arrival];
      forall j | 0 <= j < |outgoing| && outgoing[j].arrival == outgoing[i].arrival ensures j == i {
        if j < i {
          ForwardedInOrder(some, ok, j, i);
        } else if i < j {
          ForwardedInOrder(some, ok, i, j);
        }
      }
    }
  }

  // ---- sequences that grow ----

  lemma ArrivalsNext(input: seq<Read<Packet>>, n: nat, before: seq<Packet>, sofar: seq<Packet>, after: seq<Packet>)
    requires n < |input| && sofar == before + Values(input[..n])
    requires after == if input[n].Got? then sofar + [input[n].value] else sofar
    ensures after == before + Values(input[..n + 1])
  {
    ValuesNext(input, n);
  }

  lemma RecordOneMore(keys: seq<Key>, n: nat)
    requires n < |keys|
    ensures Recorded(keys[..n + 1])
         == if |Recorded(keys[..n])| < MAX_TARGETS then Recorded(keys[..n]) + {keys[n]} else Recorded(keys[..n])
  {
    assert keys[..n + 1] == keys[..n] + [keys[n]];
    RecordedNext(keys[..n], keys[n]);
  }

  lemma KeysGrow(outgoing: seq<Outgoing>, more: seq<Outgoing>)
    ensures Keys(outgoing) <= Keys(outgoing + more)
  {
    var after := outgoing + more;
    assert forall i :: 0 <= i < |outgoing| ==> after[i] == outgoing[i];
  }

  lemma KeysPrefix(outgoing: seq<Outgoing>, after: seq<Outgoing>, n: nat, m: nat)
    requires outgoing <= after && n <= |outgoing| && n <= m <= |after|
    ensures Keys(outgoing)[..n] == Keys(after)[..n] <= Keys(after)[..m] <= Keys(after)
  {
    assert forall i :: 0 <= i < |outgoing| ==> after[i] == outgoing[i];
  }

  lemma LookedStays(looks: seq<Look>, keys: seq<Key>, more: seq<Key>, client: Option<Endpoint>)
    requires Looked(looks, keys, client) && keys <= more
    ensures Looked(looks, more, client)
  {
  }

  lemma LooksAtOneMore(input: seq<Read<Reply>>, n: nat, before: seq<Look>, middle: seq<Look>, after: seq<Look>,
                       heard: nat, known: seq<Key>)
    requires n < |input| && LooksAtAll(before, middle, Values(input[..n]), heard, known)
    requires if input[n].Got? then LooksAt(middle, after, input[n].value, heard, known) else after == middle
    ensures LooksAtAll(before, after, Values(input[..n + 1]), heard, known)
  {
    ValuesNext(input, n);
    if input[n].Got? {
      LooksAtNext(before, middle, after, Values(input[..n]), input[n].value, heard, known);
    }
  }

  lemma LooksInTimeStill(looks: seq<Look>, l: Look, arrivals: seq<Packet>, clientIP: Ip)
    requires LookedInTime(looks, arrivals, clientIP) && l.heard <= |arrivals| && l.bound.Some?
    ensures LookedInTime(looks + [l], arrivals, clientIP)
  {
  }

  /** A look at this reply, with no less known than so many packets heard from the client and these
      destinations recorded. */
  ghost predicate IsLookAt(l: Look, reply: Reply, heard: nat, known: seq<Key>) {
    && l.src == reply.src && l.data == reply.data && l.written == reply.written
    && heard <= l.heard && (l.bound.Some? ==> known <= l.seen)
  }

  ghost predicate LooksAt(before: seq<Look>, after: seq<Look>, reply: Reply, heard: nat, known: seq<Key>) {
    |after| == |before| + 1 && before <= after && IsLookAt(after[|before|], reply, heard, known)
  }

  /** One look at each of the replies, in order. */
  ghost predicate LooksAtAll(before: seq<Look>, after: seq<Look>, replies: seq<Reply>, heard: nat, known: seq<Key>) {
    && |after| == |before| + |replies| && before <= after
    && forall i :: 0 <= i < |replies| ==> IsLookAt(after[|before| + i], replies[i], heard, known)
  }

  lemma LooksAtNext(before: seq<Look>, middle: seq<Look>, after: seq<Look>, replies: seq<Reply>, reply: Reply,
                    heard: nat, known: seq<Key>)
    requires LooksAtAll(before, middle, replies, heard, known) && LooksAt(middle, after, reply, heard, known)
    ensures LooksAtAll(before, after, replies + [reply], heard, known)
  {
    var more := replies + [reply];
    forall i | 0 <= i < |more| ensures IsLookAt(after[|before| + i], more[i], heard, known) {
      if i < |replies| {
        assert after[|before| + i] == middle[|before| + i];
      }
    }
  }
}
