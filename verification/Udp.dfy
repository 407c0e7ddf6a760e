/** A UDP association (udp.go:28-351; section 7 of RFC 1928): who counts as the client, who
    may answer, and the two forwarding loops. */
module Udp {
  import opened Common
  import opened Socks5Codec

  const MAX_TARGETS := 1024

  /** net.UDPAddr. */
  datatype Endpoint = Endpoint(ip: Ip, port: nat)

  function IpBytes(ip: Ip): Bytes {
    if ip.Nil? then [] else ip.bytes
  }

  /** net.IP.Equal: an IPv4 address and its mapped form are the same. */
  predicate IpEqual(a: Ip, b: Ip) {
    var x, y := IpBytes(a), IpBytes(b);
    if |x| == |y| then x == y
    else if |x| == 4 && |y| == 16 then y == MAPPED_PREFIX + x
    else |x| == 16 && |y| == 4 && x == MAPPED_PREFIX + y
  }

  /** What UDPAddr.String tells apart. */
  type Key = (Host, nat)

  function KeyOf(a: Endpoint): Key {
    (HostOf(IpBytes(a.ip)), a.port)
  }

  /** Two endpoints have one key exactly when they have one port and one address, be it written
      with four bytes or sixteen. */
  lemma KeysTellApart(a: Endpoint, b: Endpoint)
    ensures KeyOf(a) == KeyOf(b) <==> a.port == b.port && IpEqual(a.ip, b.ip)
    ensures To16(a.ip).Some? && To16(b.ip).Some? ==> (IpEqual(a.ip, b.ip) <==> To16(a.ip) == To16(b.ip))
  {
    var x, y := IpBytes(a.ip), IpBytes(b.ip);
    Prefixed(x);
    Prefixed(y);
    if |x| == 4 {
      assert (MAPPED_PREFIX + x)[12..] == x;
    }
    if |y| == 4 {
      assert (MAPPED_PREFIX + y)[12..] == y;
    }
  }

  lemma Prefixed(x: Bytes)
    ensures Mapped(x) ==> x == MAPPED_PREFIX + x[12..]
  {
    if Mapped(x) {
      assert x == x[..12] + x[12..];
    }
  }

  // ---- what the sockets bring ----

  /** What a ReadFromUDP comes back with; Over is anything at all when the association is over by then. */
  datatype Read<+T> = Got(value: T) | ReadFailed | SocketClosed | Over

  predicate Ends<T>(read: Read<T>) {
    read.SocketClosed? || read.Over?
  }

  predicate NoneEnds<T>(input: seq<Read<T>>, n: nat) {
    n <= |input| && forall i :: 0 <= i < n ==> !Ends(input[i])
  }

  /** So many reads until the first that ends the loop, if one does. */
  predicate UpToTheEnd<T>(input: seq<Read<T>>, n: nat) {
    NoneEnds(input, n) && (n < |input| ==> Ends(input[n]))
  }

  /** The packets among what was read. */
  function Values<T>(input: seq<Read<T>>): seq<T> {
    if input == [] then []
    else
      var n := |input| - 1;
      Values(input[..n]) + if input[n].Got? then [input[n].value] else []
  }

  lemma ValuesNext<T>(input: seq<Read<T>>, n: nat)
    requires n < |input|
    ensures input[n].Got? ==> Values(input[..n + 1]) == Values(input[..n]) + [input[n].value]
    ensures !input[n].Got? ==> Values(input[..n + 1]) == Values(input[..n])
  {
    assert input[..n + 1][..n] == input[..n];
  }

  /** A packet on the client's socket, with what the network would do for it: where its
      destination resolves to, if it does, and whether a write there succeeds. */
  datatype Packet = Packet(src: Endpoint, data: Bytes, resolves: Option<Endpoint>, written: bool)

  // ---- who is the client, said of the packets in the order they came ----

  /** The first packet from the client's address. */
  ghost predicate IsFirst(arrivals: seq<Packet>, clientIP: Ip, i: int) {
    && 0 <= i < |arrivals| && IpEqual(arrivals[i].src.ip, clientIP)
    && forall j :: 0 <= j < i ==> !IpEqual(arrivals[j].src.ip, clientIP)
  }

  /** Packet k comes from the client's address and the port of the first that did. */
  ghost predicate FromClient(arrivals: seq<Packet>, clientIP: Ip, k: int) {
    && 0 <= k < |arrivals| && IpEqual(arrivals[k].src.ip, clientIP)
    && exists i :: IsFirst(arrivals, clientIP, i) && arrivals[i].src.port == arrivals[k].src.port
  }

  /** More packets change neither who was first nor any verdict. */
  lemma ArrivalsGrow(arrivals: seq<Packet>, clientIP: Ip, packet: Packet)
    ensures forall i :: i < |arrivals| ==>
              (IsFirst(arrivals + [packet], clientIP, i) <==> IsFirst(arrivals, clientIP, i))
    ensures forall k :: k < |arrivals| ==>
              (FromClient(arrivals + [packet], clientIP, k) <==> FromClient(arrivals, clientIP, k))
  {
    var after := arrivals + [packet];
    forall i | i < |arrivals| ensures IsFirst(after, clientIP, i) <==> IsFirst(arrivals, clientIP, i) {
      assert forall j :: 0 <= j < |arrivals| ==> after[j] == arrivals[j];
    }
    forall k | k < |arrivals| ensures FromClient(after, clientIP, k) <==> FromClient(arrivals, clientIP, k) {
      if FromClient(after, clientIP, k) {
        var i :| IsFirst(after, clientIP, i) && after[i].src.port == after[k].src.port;
        assert i <= k;
        assert IsFirst(arrivals, clientIP, i);
      }
      if FromClient(arrivals, clientIP, k) {
        var i :| IsFirst(arrivals, clientIP, i) && arrivals[i].src.port == arrivals[k].src.port;
        assert IsFirst(after, clientIP, i);
      }
    }
  }

  /** The bound client is the first packet's source, and every verdict is as it should be. */
  ghost predicate Judged(arrivals: seq<Packet>, verdicts: seq<bool>, clientIP: Ip, client: Option<Endpoint>) {
    && (match client
        case None => forall i :: 0 <= i < |arrivals| ==> !IpEqual(arrivals[i].src.ip, clientIP)
        case Some(c) => exists i :: IsFirst(arrivals, clientIP, i) && arrivals[i].src == c)
    && |verdicts| == |arrivals|
    && forall k :: 0 <= k < |arrivals| ==> (verdicts[k] <==> FromClient(arrivals, clientIP, k))
  }

  /** The client after one more packet. */
  function Bound(clientIP: Ip, client: Option<Endpoint>, src: Endpoint): Option<Endpoint> {
    if client.None? && IpEqual(src.ip, clientIP) then Some(src) else client
  }

  /** Comparing with the bound client judges one more packet rightly. */
  lemma JudgeNext(arrivals: seq<Packet>, verdicts: seq<bool>, clientIP: Ip, client: Option<Endpoint>, packet: Packet,
                  ok: bool)
    requires Judged(arrivals, verdicts, clientIP, client)
    requires ok <==> (&& IpEqual(packet.src.ip, clientIP)
                      && Bound(clientIP, client, packet.src).value.port == packet.src.port)
    ensures Judged(arrivals + [packet], verdicts + [ok], clientIP, Bound(clientIP, client, packet.src))
  {
    var after, n := arrivals + [packet], |arrivals|;
    ArrivalsGrow(arrivals, clientIP, packet);
    if client.Some? {
      var i :| IsFirst(arrivals, clientIP, i) && arrivals[i].src == client.value;
      assert IsFirst(after, clientIP, i);
      forall j | IsFirst(after, clientIP, j) ensures j == i {
      }
    } else if IpEqual(packet.src.ip, clientIP) {
      assert IsFirst(after, clientIP, n);
    }
  }

  // ---- who may answer ----

  function Distinct(sent: seq<Key>): set<Key> {
    set k | k in sent
  }

  /** What recordTarget leaves after these packets were sent. */
  function Recorded(sent: seq<Key>): set<Key> {
    if sent == [] then {}
    else
      var before := Recorded(sent[..|sent| - 1]);
      if |before| < MAX_TARGETS then before + {sent[|sent| - 1]} else before
  }

  lemma RecordedNext(sent: seq<Key>, k: Key)
    ensures Recorded(sent + [k]) == if |Recorded(sent)| < MAX_TARGETS then Recorded(sent) + {k} else Recorded(sent)
    ensures Recorded(sent) <= Recorded(sent + [k])
  {
    assert (sent + [k])[..|sent|] == sent;
  }

  /** Position i is where a destination is sent to for the first time, with fewer than the
      limit before it. */
  ghost predicate AmongFirst(sent: seq<Key>, k: Key) {
    exists i :: 0 <= i < |sent| && sent[i] == k && |Distinct(sent[..i])| < MAX_TARGETS
  }

  lemma DistinctNext(sent: seq<Key>, k: Key)
    ensures Distinct(sent + [k]) == Distinct(sent) + {k}
  {
  }

  lemma {:induction false} RecordedCount(sent: seq<Key>)
    ensures |Recorded(sent)| == if |Distinct(sent)| < MAX_TARGETS then |Distinct(sent)| else MAX_TARGETS
    ensures |Distinct(sent)| < MAX_TARGETS ==> Recorded(sent) == Distinct(sent)
  {
    if sent != [] {
      var n := |sent| - 1;
      var init, last := sent[..n], sent[n];
      assert sent == init + [last];
      RecordedCount(init);
      RecordedNext(init, last);
      DistinctNext(init, last);
      SubsetSize(Distinct(init), Distinct(sent));
    }
  }

  /** The targets are exactly the first 1024 different destinations. */
  lemma {:induction false} RecordedMeans(sent: seq<Key>, k: Key)
    ensures k in Recorded(sent) <==> AmongFirst(sent, k)
    ensures |Recorded(sent)| <= MAX_TARGETS
  {
    RecordedCount(sent);
    if sent != [] {
      var n := |sent| - 1;
      var init, last := sent[..n], sent[n];
      assert sent == init + [last];
      RecordedMeans(init, k);
      RecordedCount(init);
      RecordedNext(init, last);
      AmongFirstNext(init, last, k);
    }
  }

  lemma AmongFirstNext(init: seq<Key>, last: Key, k: Key)
    ensures AmongFirst(init + [last], k) <==> AmongFirst(init, k) || (k == last && |Distinct(init)| < MAX_TARGETS)
  {
    var sent := init + [last];
    if AmongFirst(sent, k) {
      var i :| 0 <= i < |sent| && sent[i] == k && |Distinct(sent[..i])| < MAX_TARGETS;
      assert sent[..i] == init[..i];
      if i == |init| {
        assert init[..i] == init;
      } else {
        assert init[i] == k;
      }
    }
    if AmongFirst(init, k) {
      var i :| 0 <= i < |init| && init[i] == k && |Distinct(init[..i])| < MAX_TARGETS;
      assert sent[i] == k && sent[..i] == init[..i];
    }
    if k == last && |Distinct(init)| < MAX_TARGETS {
      assert sent[|init|] == k && sent[..|init|] == init;
    }
  }

  // ---- what is sent on ----

  /** A datagram that is not a fragment and names a host. */
  predicate Sendable(data: Bytes) {
    ParseUdp(data).Ok? && ParseUdp(data).value.host != Domain([])
  }

  /** Which are these: no fragment, one whole address, and not the domain without a name. */
  lemma SendableMeans(data: Bytes)
    ensures Sendable(data) <==>
              |data| >= 4 && data[2] == 0 && ReadAddr(data[3..]).Ok? && (data[3] == 3 ==> data[4] > 0)
    ensures Sendable(data) ==>
              ParseUdp(data).value.payload == data[3 + ReadAddr(data[3..]).value.consumed..]
  {
    UdpIsExact(data);
    if ParseUdp(data).Ok? {
      ReadAddrBytes(data[3..]);
    }
  }

  /** The payload of packet number `arrival`, written to dst. */
  datatype Outgoing = Outgoing(arrival: nat, dst: Endpoint, payload: Bytes)

  /** What becomes of packet k, accepted or not. */
  function SentFor(p: Packet, ok: bool, k: nat): seq<Outgoing> {
    if ok && Sendable(p.data) && p.resolves.Some? && p.written
    then [Outgoing(k, p.resolves.value, ParseUdp(p.data).value.payload)]
    else []
  }

  /** Everything sent on for these packets, in order. */
  function Forwarded(arrivals: seq<Packet>, verdicts: seq<bool>): seq<Outgoing>
    requires |verdicts| == |arrivals|
  {
    if arrivals == [] then []
    else
      var n := |arrivals| - 1;
      Forwarded(arrivals[..n], verdicts[..n]) + SentFor(arrivals[n], verdicts[n], n)
  }

  lemma ForwardedNext(arrivals: seq<Packet>, verdicts: seq<bool>, n: nat)
    requires |verdicts| == |arrivals| && n < |arrivals|
    ensures Forwarded(arrivals[..n + 1], verdicts[..n + 1])
         == Forwarded(arrivals[..n], verdicts[..n]) + SentFor(arrivals[n], verdicts[n], n)
  {
    assert arrivals[..n + 1][..n] == arrivals[..n] && verdicts[..n + 1][..n] == verdicts[..n];
  }

  /** o is the payload of p, to where p's destination resolves. */
  predicate Carries(o: Outgoing, p: Packet) {
    Sendable(p.data) && p.resolves == Some(o.dst) && p.written && o.payload == ParseUdp(p.data).value.payload
  }

  predicate Due(p: Packet, ok: bool) {
    ok && Sendable(p.data) && p.resolves.Some? && p.written
  }

  lemma SentForMeans(p: Packet, ok: bool, k: nat)
    ensures |SentFor(p, ok, k)| == if Due(p, ok) then 1 else 0
    ensures forall o :: o in SentFor(p, ok, k) ==> o.arrival == k && ok && Carries(o, p)
  {
  }

  ghost predicate Sends(o: Outgoing, arrivals: seq<Packet>, verdicts: seq<bool>) {
    o.arrival < |arrivals| == |verdicts| && verdicts[o.arrival] && Carries(o, arrivals[o.arrival])
  }

  lemma SendsStays(o: Outgoing, arrivals: seq<Packet>, verdicts: seq<bool>, n: nat)
    requires n <= |arrivals| == |verdicts| && Sends(o, arrivals[..n], verdicts[..n])
    ensures Sends(o, arrivals, verdicts)
  {
  }

  /** Every write is for a packet that was accepted, and of its payload. */
  lemma {:induction false} ForwardedSends(arrivals: seq<Packet>, verdicts: seq<bool>, i: nat)
    requires |verdicts| == |arrivals| && i < |Forwarded(arrivals, verdicts)|
    ensures Sends(Forwarded(arrivals, verdicts)[i], arrivals, verdicts)
    decreases |arrivals|
  {
    var n := |arrivals| - 1;
    var before, last := Forwarded(arrivals[..n], verdicts[..n]), SentFor(arrivals[n], verdicts[n], n);
    if i < |before| {
      ForwardedSends(arrivals[..n], verdicts[..n], i);
      SendsStays(before[i], arrivals, verdicts, n);
    } else {
      SentForMeans(arrivals[n], verdicts[n], n);
      assert last[i - |before|] in last;
    }
  }

  /** The writes are in the order of the packets, and never two for one. */
  lemma {:induction false} ForwardedInOrder(arrivals: seq<Packet>, verdicts: seq<bool>, i: nat, j: nat)
    requires |verdicts| == |arrivals| && i < j < |Forwarded(arrivals, verdicts)|
    ensures Forwarded(arrivals, verdicts)[i].arrival < Forwarded(arrivals, verdicts)[j].arrival
    decreases |arrivals|
  {
    var n := |arrivals| - 1;
    var before, last := Forwarded(arrivals[..n], verdicts[..n]), SentFor(arrivals[n], verdicts[n], n);
    SentForMeans(arrivals[n], verdicts[n], n);
    if j < |before| {
      ForwardedInOrder(arrivals[..n], verdicts[..n], i, j);
    } else {
      ForwardedSends(arrivals[..n], verdicts[..n], i);
      assert last[j - |before|] in last;
    }
  }

  lemma ForwardedArrived(arrivals: seq<Packet>, verdicts: seq<bool>)
    requires |verdicts| == |arrivals|
    ensures forall o :: o in Forwarded(arrivals, verdicts) ==> o.arrival < |arrivals|
  {
    var all := Forwarded(arrivals, verdicts);
    forall o | o in all ensures o.arrival < |arrivals| {
      var i :| 0 <= i < |all| && all[i] == o;
      ForwardedSends(arrivals, verdicts, i);
    }
  }

  /** For exactly the packets that are accepted, name a host that resolves and can be written. */
  lemma {:induction false} ForwardedIsAll(arrivals: seq<Packet>, verdicts: seq<bool>, k: nat)
    requires |verdicts| == |arrivals| && k < |arrivals|
    ensures Due(arrivals[k], verdicts[k]) <==> exists o :: o in Forwarded(arrivals, verdicts) && o.arrival == k
    decreases |arrivals|
  {
    var n := |arrivals| - 1;
    var before, last := Forwarded(arrivals[..n], verdicts[..n]), SentFor(arrivals[n], verdicts[n], n);
    SentForMeans(arrivals[n], verdicts[n], n);
    ForwardedArrived(arrivals[..n], verdicts[..n]);
    if k < n {
      ForwardedIsAll(arrivals[..n], verdicts[..n], k);
    } else if Due(arrivals[k], verdicts[k]) {
      assert last[0] in last;
    }
  }

  function Keys(outgoing: seq<Outgoing>): (keys: seq<Key>)
    ensures |keys| == |outgoing|
  {
    seq(|outgoing|, i requires 0 <= i < |outgoing| => KeyOf(outgoing[i].dst))
  }

  // ---- what is let through ----

  /** A packet on the outward socket and whether a write to the client succeeds; the client
      that was bound when it was looked at, how many packets had been heard on its socket, and the
      destinations recorded by then. */
  datatype Look = Look(
    src: Endpoint, data: Bytes, written: bool, bound: Option<Endpoint>, heard: nat, seen: seq<Key>)

  datatype Delivery = Delivery(src: Endpoint, payload: Bytes, packet: Bytes, to: Endpoint)

  function Pass(l: Look): seq<Delivery> {
    if l.bound.Some? && KeyOf(l.src) in Recorded(l.seen) && l.written && BuildUdp(l.src.ip, l.src.port, l.data).Ok?
    then [Delivery(l.src, l.data, BuildUdp(l.src.ip, l.src.port, l.data).value, l.bound.value)]
    else []
  }

  predicate Passes(l: Look) {
    l.bound.Some? && KeyOf(l.src) in Recorded(l.seen) && l.written && BuildUdp(l.src.ip, l.src.port, l.data).Ok?
  }

  lemma PassMeans(l: Look)
    ensures |Pass(l)| == if Passes(l) then 1 else 0
  {
  }

  function LetThrough(looks: seq<Look>): seq<Delivery> {
    if looks == [] then [] else LetThrough(looks[..|looks| - 1]) + Pass(looks[|looks| - 1])
  }

  lemma LetThroughNext(looks: seq<Look>, l: Look)
    ensures LetThrough(looks + [l]) == LetThrough(looks) + Pass(l)
  {
    assert (looks + [l])[..|looks|] == looks;
  }

  lemma {:induction false} LetThroughMeans(looks: seq<Look>, d: Delivery)
    requires d in LetThrough(looks)
    ensures exists l :: l in looks && Pass(l) == [d]
  {
    var init, last := looks[..|looks| - 1], looks[|looks| - 1];
    if d in LetThrough(init) {
      LetThroughMeans(init, d);
    } else {
      assert Pass(last) == [d];
    }
  }

  /** Every look was at the bound client, if any, and at the first so many destinations. */
  ghost predicate Looked(looks: seq<Look>, keys: seq<Key>, client: Option<Endpoint>) {
    forall l :: l in looks ==> l.seen <= keys && (l.bound.Some? ==> client == l.bound)
  }

  /** A client was bound unless nothing had been heard from its address. */
  ghost predicate LookedInTime(looks: seq<Look>, arrivals: seq<Packet>, clientIP: Ip) {
    forall l :: l in looks ==>
      && l.heard <= |arrivals|
      && (l.bound.None? ==> forall i :: 0 <= i < l.heard ==> !IpEqual(arrivals[i].src.ip, clientIP))
  }

  /** Among the first of fewer is among the first of more. */
  lemma AmongFirstOfMore(seen: seq<Key>, keys: seq<Key>, k: Key)
    requires seen <= keys && AmongFirst(seen, k)
    ensures AmongFirst(keys, k)
  {
    var i :| 0 <= i < |seen| && seen[i] == k && |Distinct(seen[..i])| < MAX_TARGETS;
    assert keys[i] == k && keys[..i] == seen[..i];
  }
}
