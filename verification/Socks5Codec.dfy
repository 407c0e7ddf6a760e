/** Addresses and datagrams on the wire (socks5.go:259-340, udp.go:353-392; sections 5 and 7
    of RFC 1928).  Hosts are raw address bytes or domain bytes. */
module Socks5Codec {
  import opened Common

  type Bytes = seq<Byte>

  const ATYP_IPV4: Byte := 1
  const ATYP_DOMAIN: Byte := 3
  const ATYP_IPV6: Byte := 4
  const UDP_HEADER_LEN := 3

  datatype Error = ShortPacket | UnsupportedAddrType | UdpFragmentUnsupported | CannotEncodeAddr

  // ---- net.IP ----

  /** A net.IP: nil, or a slice of any length. */
  datatype Ip = Nil | Slice(bytes: Bytes)

  const MAPPED_PREFIX: Bytes := [0, 0, 0, 0, 0, 0, 0, 0, 0, 0, 255, 255]

  predicate Mapped(bytes: Bytes) {
    |bytes| == 16 && bytes[..12] == MAPPED_PREFIX
  }

  function To4(ip: Ip): Option<Bytes> {
    if ip.Slice? && |ip.bytes| == 4 then Some(ip.bytes)
    else if ip.Slice? && Mapped(ip.bytes) then Some(ip.bytes[12..])
    else None
  }

  function To16(ip: Ip): Option<Bytes> {
    if ip.Slice? && |ip.bytes| == 4 then Some(MAPPED_PREFIX + ip.bytes)
    else if ip.Slice? && |ip.bytes| == 16 then Some(ip.bytes)
    else None
  }

  datatype Host = Address(bytes: Bytes) | Domain(name: Bytes)

  /** What net.IP.String tells apart: an IPv4-mapped address is written as the IPv4 one. */
  function HostOf(bytes: Bytes): Host {
    Address(if Mapped(bytes) then bytes[12..] else bytes)
  }

  /** The address a net.IP stands for; nil stands for 0.0.0.0. */
  function Canonical(ip: Ip): Host {
    if ip.Nil? then Address([0, 0, 0, 0]) else HostOf(ip.bytes)
  }

  // ---- ports ----

  /** binary.BigEndian.Uint16. */
  function Uint16(hi: Byte, lo: Byte): (port: nat)
    ensures port < 0x1_0000
  {
    hi * 256 + lo
  }

  /** AppendUint16 of uint16(port), which keeps the low sixteen bits. */
  function PortBytes(port: int): (bytes: Bytes)
    ensures |bytes| == 2 && Uint16(bytes[0], bytes[1]) == port % 0x1_0000
  {
    var low := port % 0x1_0000;
    [low / 256, low % 256]
  }

  lemma PortOfBytes(hi: Byte, lo: Byte)
    ensures PortBytes(Uint16(hi, lo)) == [hi, lo]
  {
    var port := Uint16(hi, lo);
    assert port % 0x1_0000 == port;
    assert port / 256 == hi && port % 256 == lo;
  }

  // ---- readSocks5Addr and buildSocks5Addr ----

  datatype Parsed = Parsed(host: Host, port: nat, consumed: nat)

  function ReadAddr(b: Bytes): Result<Parsed, Error> {
    if |b| < 1 then Err(ShortPacket)
    else if b[0] == ATYP_IPV4 then
      if |b| < 7 then Err(ShortPacket)
      else Ok(Parsed(HostOf(b[1..5]), Uint16(b[5], b[6]), 7))
    else if b[0] == ATYP_IPV6 then
      if |b| < 19 then Err(ShortPacket)
      else Ok(Parsed(HostOf(b[1..17]), Uint16(b[17], b[18]), 19))
    else if b[0] == ATYP_DOMAIN then
      if |b| < 2 then Err(ShortPacket)
      else
        var dlen: nat := b[1];
        if |b| < 2 + dlen + 2 then Err(ShortPacket)
        else Ok(Parsed(Domain(b[2..2 + dlen]), Uint16(b[2 + dlen], b[3 + dlen]), 4 + dlen))
    else Err(UnsupportedAddrType)
  }

  function BuildAddr(ip: Ip, port: int): Result<Bytes, Error> {
    if ip.Nil? then Ok([ATYP_IPV4, 0, 0, 0, 0] + PortBytes(port))
    else if To4(ip).Some? then Ok([ATYP_IPV4] + To4(ip).value + PortBytes(port))
    else if To16(ip).Some? then Ok([ATYP_IPV6] + To16(ip).value + PortBytes(port))
    else Err(CannotEncodeAddr)
  }

  /** What was built is read back, whatever follows it: the canonical address, the low
      sixteen bits of the port and exactly the bytes built. */
  lemma AddrRoundTrip(ip: Ip, port: int, rest: Bytes)
    ensures match BuildAddr(ip, port)
            case Ok(b) => ReadAddr(b + rest) == Ok(Parsed(Canonical(ip), port % 0x1_0000, |b|))
            case Err(e) => ip.Slice? && |ip.bytes| != 4 && |ip.bytes| != 16
  {
    if BuildAddr(ip, port).Ok? {
      var b := BuildAddr(ip, port).value;
      var s := b + rest;
      var n := |b| - 2;
      assert s[n] == PortBytes(port)[0] && s[n + 1] == PortBytes(port)[1];
      if ip.Nil? {
        assert s[1..5] == [0, 0, 0, 0];
      } else if To4(ip).Some? {
        assert s[1..5] == To4(ip).value;
      } else {
        assert s[1..17] == ip.bytes;
      }
    }
  }

  /** Byte for byte, where the length of an address says where it ends: the type, for a domain its
      length, the address, and the port with its high byte first. */
  lemma ReadAddrBytes(b: Bytes)
    requires ReadAddr(b).Ok?
    ensures var p := ReadAddr(b).value;
            && 4 <= p.consumed <= |b|
            && p.port / 256 == b[p.consumed - 2] && p.port % 256 == b[p.consumed - 1]
            && (|| (b[0] == 1 && p.consumed == 7 && p.host == HostOf(b[1..5]))
                || (b[0] == 4 && p.consumed == 19 && p.host == HostOf(b[1..17]))
                || (b[0] == 3 && p.consumed - 4 == b[1] && p.host == Domain(b[2..p.consumed - 2])))
  {
    var p := ReadAddr(b).value;
    PortOfBytes(b[p.consumed - 2], b[p.consumed - 1]);
  }

  /** The last two bytes are the low sixteen bits of the port, the high byte first. */
  lemma BuildAddrBytes(ip: Ip, port: int)
    requires BuildAddr(ip, port).Ok?
    ensures var b := BuildAddr(ip, port).value;
            && (if |b| == 7 then b[0] == 1 else |b| == 19 && b[0] == 4)
            && b[|b| - 2] == port % 0x1_0000 / 256 && b[|b| - 1] == port % 0x1_0000 % 256
            && b[1..|b| - 2] == if ip.Nil? then [0, 0, 0, 0] else if |b| == 7 then To4(ip).value else ip.bytes
  {
    var b := BuildAddr(ip, port).value;
    PortInOrder(port);
    assert b[|b| - 2..] == PortBytes(port);
  }

  lemma PortInOrder(port: int)
    ensures PortBytes(port)[0] == port % 0x1_0000 / 256 && PortBytes(port)[1] == port % 0x1_0000 % 256
  {
  }

  /** Two addresses are told apart exactly when their sixteen-byte forms differ. */
  lemma SameHost(a: Ip, b: Ip)
    requires To16(a).Some? && To16(b).Some?
    ensures Canonical(a) == Canonical(b) <==> To16(a) == To16(b)
  {
    var x, y := To16(a).value, To16(b).value;
    Unmapped(a);
    Unmapped(b);
  }

  /** What is left of an address without its prefix says what it was. */
  lemma Unmapped(a: Ip)
    requires To16(a).Some?
    ensures To16(a).value
         == if |Canonical(a).bytes| == 4 then MAPPED_PREFIX + Canonical(a).bytes else Canonical(a).bytes
    ensures |Canonical(a).bytes| == 4 <==> Mapped(To16(a).value)
  {
    var x := To16(a).value;
    assert x == x[..12] + x[12..];
  }

  /** A decision does not depend on what follows: only "too short" can change. */
  lemma ReadAddrExtends(b: Bytes, more: Bytes)
    requires ReadAddr(b) != Err(ShortPacket)
    ensures ReadAddr(b + more) == ReadAddr(b)
    ensures ReadAddr(b).Ok? ==> ReadAddr(b).value.consumed <= |b|
  {
    var s := b + more;
    assert s[0] == b[0];
    if b[0] == ATYP_IPV4 {
      assert s[1..5] == b[1..5] && s[5] == b[5] && s[6] == b[6];
    } else if b[0] == ATYP_IPV6 {
      assert s[1..17] == b[1..17] && s[17] == b[17] && s[18] == b[18];
    } else if b[0] == ATYP_DOMAIN {
      var n: nat := b[1];
      assert s[1] == n && s[2..2 + n] == b[2..2 + n] && s[2 + n] == b[2 + n] && s[3 + n] == b[3 + n];
    }
  }

  /** Exactly the bytes counted as consumed are needed: those alone read the same, and any
      fewer are too short. */
  lemma ReadAddrFrames(b: Bytes, k: nat)
    requires ReadAddr(b).Ok? && k <= |b|
    ensures if k < ReadAddr(b).value.consumed then ReadAddr(b[..k]) == Err(ShortPacket)
            else ReadAddr(b[..k]) == ReadAddr(b)
  {
    if k >= ReadAddr(b).value.consumed {
      assert b == b[..k] + b[k..];
      assert b[..k][0] == b[0];
      assert b[0] == ATYP_DOMAIN ==> b[..k][1] == b[1];
      ReadAddrExtends(b[..k], b[k..]);
    } else if k > 0 {
      assert b[..k][0] == b[0];
      assert k > 1 ==> b[..k][1] == b[1];
    }
  }

  /** Building the address that was read gives back the bytes read, except where the source
      wrote a domain or an IPv4-mapped address: there, and only there, it cannot. */
  lemma Rebuilds(b: Bytes)
    requires ReadAddr(b).Ok?
    ensures var p := ReadAddr(b).value;
            (p.host.Address? && BuildAddr(Slice(p.host.bytes), p.port) == Ok(b[..p.consumed]))
            <==> (b[0] == ATYP_IPV4 || (b[0] == ATYP_IPV6 && !Mapped(b[1..17])))
  {
    var p := ReadAddr(b).value;
    if b[0] == ATYP_IPV4 {
      PortOfBytes(b[5], b[6]);
      assert b[..7] == [b[0]] + b[1..5] + [b[5], b[6]];
    } else if b[0] == ATYP_IPV6 {
      PortOfBytes(b[17], b[18]);
      assert b[..19] == [b[0]] + b[1..17] + [b[17], b[18]];
      if Mapped(b[1..17]) {
        assert BuildAddr(Slice(p.host.bytes), p.port).value[0] == ATYP_IPV4;
        assert b[..19][0] == ATYP_IPV6;
      }
    }
  }

  /** No encoding of one endpoint begins with that of another. */
  lemma EncodingsArePrefixFree(ip1: Ip, port1: int, ip2: Ip, port2: int)
    requires BuildAddr(ip1, port1).Ok? && BuildAddr(ip2, port2).Ok?
    requires BuildAddr(ip1, port1).value <= BuildAddr(ip2, port2).value
    ensures Canonical(ip1) == Canonical(ip2) && port1 % 0x1_0000 == port2 % 0x1_0000
  {
    var b1, b2 := BuildAddr(ip1, port1).value, BuildAddr(ip2, port2).value;
    assert b2 == b1 + b2[|b1|..];
    AddrRoundTrip(ip1, port1, b2[|b1|..]);
    AddrRoundTrip(ip2, port2, []);
    assert b2 + [] == b2;
  }

  // ---- parseUDPDatagram and buildUDPDatagram ----

  datatype Datagram = Datagram(host: Host, port: nat, payload: Bytes)

  function ParseUdp(b: Bytes): Result<Datagram, Error> {
    if |b| < UDP_HEADER_LEN + 1 then Err(ShortPacket)
    else if b[2] != 0 then Err(UdpFragmentUnsupported)
    else match ReadAddr(b[UDP_HEADER_LEN..])
      case Err(e) => Err(e)
      case Ok(p) =>
        ReadAddrExtends(b[UDP_HEADER_LEN..], []);
        Ok(Datagram(p.host, p.port, b[UDP_HEADER_LEN + p.consumed..]))
  }

  function BuildUdp(ip: Ip, port: int, payload: Bytes): Result<Bytes, Error> {
    if To4(ip).Some? then Ok([0, 0, 0, ATYP_IPV4] + To4(ip).value + PortBytes(port) + payload)
    else if To16(ip).Some? then Ok([0, 0, 0, ATYP_IPV6] + To16(ip).value + PortBytes(port) + payload)
    else Err(CannotEncodeAddr)
  }

  /** The header of a reply, byte for byte: three zeros, the address and the port with its high byte
      first; then the payload. */
  lemma BuildUdpBytes(ip: Ip, port: int, payload: Bytes)
    requires BuildUdp(ip, port, payload).Ok?
    ensures var b := BuildUdp(ip, port, payload).value;
            var n := if To4(ip).Some? then 10 else 22;
            && |b| == n + |payload| && b[..3] == [0, 0, 0] && b[3] == (if n == 10 then 1 else 4)
            && b[4..n - 2] == (if n == 10 then To4(ip).value else ip.bytes)
            && b[n - 2] == port % 0x1_0000 / 256 && b[n - 1] == port % 0x1_0000 % 256
            && b[n..] == payload
  {
    PortInOrder(port);
  }

  /** The client reads back where a reply came from and all of its payload.  A nil address,
      which buildSocks5Addr writes as 0.0.0.0, is refused here. */
  lemma UdpRoundTrip(ip: Ip, port: int, payload: Bytes)
    ensures match BuildUdp(ip, port, payload)
            case Ok(b) => ParseUdp(b) == Ok(Datagram(Canonical(ip), port % 0x1_0000, payload))
            case Err(_) => To16(ip).None?
  {
    if BuildUdp(ip, port, payload).Ok? {
      var b, addr := BuildUdp(ip, port, payload).value, BuildAddr(ip, port).value;
      assert b == [0, 0, 0] + addr + payload;
      assert b[UDP_HEADER_LEN..] == addr + payload;
      AddrRoundTrip(ip, port, payload);
    }
  }

  /** A datagram is accepted exactly when it is not a fragment and an address can be read; it
      is then its header, that address and its payload, with nothing lost or doubled. */
  lemma UdpIsExact(b: Bytes)
    ensures ParseUdp(b).Ok? <==> |b| >= 4 && b[2] == 0 && ReadAddr(b[3..]).Ok?
    ensures ParseUdp(b).Ok? ==>
              var p := ReadAddr(b[3..]).value;
              var d := ParseUdp(b).value;
              && b == b[..3] + b[3..3 + p.consumed] + d.payload
              && ReadAddr(b[3..3 + p.consumed]) == Ok(Parsed(d.host, d.port, p.consumed))
  {
    if ParseUdp(b).Ok? {
      var p := ReadAddr(b[3..]).value;
      ReadAddrExtends(b[3..], []);
      ReadAddrFrames(b[3..], p.consumed);
      assert b[3..][..p.consumed] == b[3..3 + p.consumed];
    }
  }
}
