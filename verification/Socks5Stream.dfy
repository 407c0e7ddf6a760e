/** The SOCKS5 handshake and request over a stream cut anywhere (socks5.go:162-257; sections 3
    and 4 of RFC 1928). */
module Socks5Stream {
  import opened Common
  import opened Streams
  import Socks5Codec

  const VERSION: Byte := 5
  const NO_AUTH: Byte := 0
  const NO_ACCEPTABLE: Byte := 255

  const CMD_CONNECT: Byte := 1
  const CMD_UDP_ASSOCIATE: Byte := 3

  const REP_SUCCEEDED: Byte := 0
  const REP_GENERAL_FAILURE: Byte := 1
  const REP_COMMAND_NOT_SUPPORTED: Byte := 7
  const REP_ADDR_TYPE_NOT_SUPPORTED: Byte := 8

  // ---- what a stream begins with ----

  /** Version 5, at least one method, and "no authentication" among them. */
  function HandshakeEnd(s: Bytes): (end: Option<nat>)
    ensures end.Some? ==> end.value <= |s|
  {
    if |s| < 2 || s[0] != VERSION then None
    else
      var nMethods: nat := s[1];
      if nMethods == 0 || |s| < 2 + nMethods || NO_AUTH !in s[2..2 + nMethods] then None
      else Some(2 + nMethods)
  }

  /** The second half of the greeting is there but offers nothing acceptable. */
  predicate OffersNothing(s: Bytes) {
    && |s| >= 2 && s[0] == VERSION
    && var nMethods: nat := s[1];
       |s| >= 2 + nMethods && NO_AUTH !in s[2..2 + nMethods]
  }

  datatype Request = Request(cmd: Byte, host: Socks5Codec.Host, port: nat)

  datatype Parsed = Parsed(req: Request, consumed: nat)

  /** The request at the start of s, or the reply that refuses it, 0 for none. */
  function ParseRequest(s: Bytes): Result<Parsed, Byte> {
    if |s| < 4 || s[0] != VERSION then Err(0)
    else match Socks5Codec.ReadAddr(s[3..])
      case Err(UnsupportedAddrType) => Err(REP_ADDR_TYPE_NOT_SUPPORTED)
      case Err(_) => Err(REP_GENERAL_FAILURE)
      case Ok(a) => Ok(Parsed(Request(s[1], a.host, a.port), 3 + a.consumed))
  }

  /** A request is framed by its own bytes: what follows does not change it. */
  lemma RequestFrames(s: Bytes, more: Bytes)
    requires ParseRequest(s).Ok?
    ensures ParseRequest(s).value.consumed <= |s|
    ensures ParseRequest(s + more) == ParseRequest(s)
    ensures forall k :: 0 <= k < ParseRequest(s).value.consumed ==> ParseRequest(s[..k]).Err?
    ensures ParseRequest(s[..ParseRequest(s).value.consumed]) == ParseRequest(s)
  {
    var n := ParseRequest(s).value.consumed;
    assert (s + more)[3..] == s[3..] + more;
    Socks5Codec.ReadAddrExtends(s[3..], more);
    forall k | 0 <= k < n ensures ParseRequest(s[..k]).Err? {
      if k >= 4 {
        assert s[..k][3..] == s[3..][..k - 3];
        Socks5Codec.ReadAddrFrames(s[3..], k - 3);
      }
    }
    assert s[..n][3..] == s[3..][..n - 3];
    Socks5Codec.ReadAddrFrames(s[3..], n - 3);
  }

  /** Byte for byte: version, command, a reserved byte, and the address with its port. */
  lemma RequestBytes(s: Bytes)
    requires ParseRequest(s).Ok?
    ensures var p := ParseRequest(s).value;
            && 7 <= p.consumed <= |s|
            && s[0] == 5 && s[1] == p.req.cmd
            && p.req.port / 256 == s[p.consumed - 2] && p.req.port % 256 == s[p.consumed - 1]
            && (|| (s[3] == 1 && p.consumed == 10 && p.req.host == Socks5Codec.HostOf(s[4..8]))
                || (s[3] == 4 && p.consumed == 22 && p.req.host == Socks5Codec.HostOf(s[4..20]))
                || (s[3] == 3 && p.consumed - 7 == s[4] && p.req.host == Socks5Codec.Domain(s[5..p.consumed - 2])))
  {
    var b := s[3..];
    Socks5Codec.ReadAddrBytes(b);
    if s[3] == 1 {
      assert b[1..5] == s[4..8];
    } else if s[3] == 4 {
      assert b[1..17] == s[4..20];
    } else {
      var n := ParseRequest(s).value.consumed - 3;
      assert b[2..n - 2] == s[5..n + 1];
    }
  }

  /** sendSocks5Response: the bound address is all zero. */
  function Reply(code: Byte): Bytes {
    [VERSION, code, 0] + Socks5Codec.BuildAddr(Socks5Codec.Nil, 0).value
  }

  /** Which requests are refused with which reply: 8 for an address type that is none, 1 for an
      address cut off, none for what is no request. */
  lemma RefusedRequest(s: Bytes)
    requires ParseRequest(s).Err?
    ensures ParseRequest(s).error
         == if |s| < 4 || s[0] != 5 then 0
            else if s[3] != 1 && s[3] != 3 && s[3] != 4 then 8
            else 1
  {
    if |s| >= 4 {
      assert s[3..][0] == s[3];
    }
  }

  lemma ReplyBytes(code: Byte)
    ensures Reply(code) == [5, code, 0, 1, 0, 0, 0, 0, 0, 0]
  {
  }

  /** A client that reads replies as requests are read finds the code and nothing left over. */
  lemma ReplyIsWellFormed(code: Byte, rest: Bytes)
    ensures |Reply(code)| == 10 && Reply(code)[0] == 5 && Reply(code)[1] == code
    ensures Socks5Codec.ReadAddr((Reply(code) + rest)[3..])
         == Ok(Socks5Codec.Parsed(Socks5Codec.Address([0, 0, 0, 0]), 0, |Reply(code)| - 3))
  {
    assert (Reply(code) + rest)[3..] == Socks5Codec.BuildAddr(Socks5Codec.Nil, 0).value + rest;
    Socks5Codec.AddrRoundTrip(Socks5Codec.Nil, 0, rest);
  }

  // ---- socks5Handshake ----

  /** Takes exactly the greeting.  It fails only if the connection does, the stream does not
      begin with a greeting that offers "no authentication", or both. */
  method Handshake(reader: BufReader) returns (ok: bool)
    requires reader.limiter == null && reader.Ready()
    modifies reader`buf, reader`err, reader.conn`incoming, reader.conn`broken, reader.conn`written
    ensures reader.Ready()
    ensures ok ==>
              && HandshakeEnd(old(reader.Pending())).Some?
              && reader.Pending() == old(reader.Pending())[HandshakeEnd(old(reader.Pending())).value..]
              && reader.conn.written == old(reader.conn.written) + [VERSION, NO_AUTH]
              && reader.conn.broken == old(reader.conn.broken)
    ensures !ok ==> reader.conn.broken || HandshakeEnd(old(reader.Pending())).None?
    ensures !ok && !reader.conn.broken ==>
              reader.conn.written == old(reader.conn.written)
                + if OffersNothing(old(reader.Pending())) then [VERSION, NO_ACCEPTABLE] else []
    ensures old(reader.conn.broken) ==> reader.conn.broken
  {
    ghost var s := reader.Pending();
    var head, read := reader.ReadFull(2);
    if !read || head[0] != VERSION {
      return false;
    }
    assert s == head + reader.Pending();
    assert head[0] == s[0] && head[1] == s[1];
    var nMethods: nat := head[1];
    if nMethods == 0 {
      Refuse(reader);
      return false;
    }
    ghost var s2 := reader.Pending();
    var methods;
    methods, read := reader.ReadFull(nMethods);
    if !read {
      return false;
    }
    assert s[2..2 + nMethods] == methods && s[2 + nMethods..] == reader.Pending() by {
      assert s == head + methods + reader.Pending();
    }
    if NO_AUTH !in methods {
      Refuse(reader);
      return false;
    }
    ok := reader.conn.Write([VERSION, NO_AUTH]);
  }

  method Refuse(reader: BufReader)
    modifies reader.conn`written, reader.conn`broken
    ensures reader.Pending() == old(reader.Pending())
    ensures !reader.conn.broken ==> reader.conn.written == old(reader.conn.written) + [VERSION, NO_ACCEPTABLE]
    ensures old(reader.conn.broken) ==> reader.conn.broken
  {
    var _ := reader.conn.Write([VERSION, NO_ACCEPTABLE]);
  }

  // ---- readSocks5Request ----

  /** raw is one whole address. */
  predicate Complete(raw: Bytes) {
    Socks5Codec.ReadAddr(raw).Ok? && Socks5Codec.ReadAddr(raw).value.consumed == |raw|
  }

  predicate Refuses(b: Bytes, reply: Byte) {
    match Socks5Codec.ReadAddr(b)
    case Err(UnsupportedAddrType) => reply == REP_ADDR_TYPE_NOT_SUPPORTED
    case Err(_) => reply == REP_GENERAL_FAILURE
    case Ok(_) => false
  }

  /** The address bytes of a request whose first four bytes are read, the fourth being atyp;
      a reply other than 0 says why there are none. */
  method ReadRaw(reader: BufReader, atyp: Byte) returns (raw: Bytes, reply: Byte)
    requires reader.limiter == null && reader.Ready()
    modifies reader`buf, reader`err, reader.conn`incoming, reader.conn`broken
    ensures reader.Ready()
    ensures reply == 0 ==>
              && [atyp] + old(reader.Pending()) == raw + reader.Pending()
              && Complete(raw) && reader.conn.broken == old(reader.conn.broken)
    ensures reply != 0 ==> reader.conn.broken || Refuses([atyp] + old(reader.Pending()), reply)
    ensures old(reader.conn.broken) ==> reader.conn.broken
  {
    var hostLen, prefix;
    hostLen, prefix, reply := ReadHostLength(reader, atyp);
    if reply != 0 {
      return [], reply;
    }
    var rest, read := reader.ReadFull(hostLen + 2);
    raw := prefix + rest;
    assert [atyp] + old(reader.Pending()) == raw + reader.Pending();
    if read {
      WholeAddress(prefix, hostLen, rest);
    } else {
      if !reader.conn.broken {
        ShortAddress(prefix, hostLen, raw + reader.Pending());
      }
      reply := REP_GENERAL_FAILURE;
    }
  }

  /** What comes before the host, which says how long it is. */
  predicate Announces(prefix: Bytes, hostLen: nat) {
    || (prefix == [Socks5Codec.ATYP_IPV4] && hostLen == 4)
    || (prefix == [Socks5Codec.ATYP_IPV6] && hostLen == 16)
    || (|prefix| == 2 && prefix[0] == Socks5Codec.ATYP_DOMAIN && prefix[1] == hostLen)
  }

  lemma WholeAddress(prefix: Bytes, hostLen: nat, rest: Bytes)
    requires Announces(prefix, hostLen) && |rest| == hostLen + 2
    ensures Complete(prefix + rest)
  {
  }

  lemma ShortAddress(prefix: Bytes, hostLen: nat, all: Bytes)
    requires Announces(prefix, hostLen) && prefix <= all && |all| < |prefix| + hostLen + 2
    ensures Refuses(all, REP_GENERAL_FAILURE)
  {
  }

  /** The length of the host, by the type of the address, socks5.go:216-232. */
  method ReadHostLength(reader: BufReader, atyp: Byte) returns (hostLen: nat, prefix: Bytes, reply: Byte)
    requires reader.limiter == null && reader.Ready()
    modifies reader`buf, reader`err, reader.conn`incoming, reader.conn`broken
    ensures reader.Ready()
    ensures reply == 0 ==>
              && Announces(prefix, hostLen) && [atyp] + old(reader.Pending()) == prefix + reader.Pending()
              && reader.conn.broken == old(reader.conn.broken)
    ensures reply != 0 ==> reader.conn.broken || Refuses([atyp] + old(reader.Pending()), reply)
    ensures old(reader.conn.broken) ==> reader.conn.broken
  {
    hostLen, prefix, reply := 0, [atyp], 0;
    if atyp == Socks5Codec.ATYP_IPV4 {
      hostLen := 4;
    } else if atyp == Socks5Codec.ATYP_IPV6 {
      hostLen := 16;
    } else if atyp == Socks5Codec.ATYP_DOMAIN {
      var lenBuf, read := reader.ReadFull(1);
      if read {
        hostLen, prefix := lenBuf[0], [atyp] + lenBuf;
      } else {
        reply := REP_GENERAL_FAILURE;
      }
    } else {
      reply := REP_ADDR_TYPE_NOT_SUPPORTED;
    }
  }

  /** Reads piece by piece what ParseRequest says of the stream as a whole, and takes exactly
      the request.  The bytes it collects can always be parsed. */
  method ReadRequest(reader: BufReader) returns (result: Result<Request, Byte>)
    requires reader.limiter == null && reader.Ready()
    modifies reader`buf, reader`err, reader.conn`incoming, reader.conn`broken
    ensures reader.Ready()
    ensures result.Ok? ==>
              var parsed := ParseRequest(old(reader.Pending()));
              && parsed.Ok? && result.value == parsed.value.req
              && parsed.value.consumed <= |old(reader.Pending())|
              && reader.Pending() == old(reader.Pending())[parsed.value.consumed..]
              && reader.conn.broken == old(reader.conn.broken)
    ensures result.Err? ==> reader.conn.broken || ParseRequest(old(reader.Pending())) == Err(result.error)
    ensures old(reader.conn.broken) ==> reader.conn.broken
  {
    ghost var s := reader.Pending();
    var head, read := reader.ReadFull(4);
    if !read {
      return Err(0);
    }
    assert s == head + reader.Pending();
    if head[0] != VERSION {
      return Err(0);
    }
    var raw, reply := ReadRaw(reader, head[3]);
    assert s[3..] == [head[3]] + s[4..];
    if reply != 0 {
      return Err(reply);
    }
    Socks5Codec.ReadAddrExtends(raw, reader.Pending());
    match Socks5Codec.ReadAddr(raw) {
      case Ok(a) =>
        result := Ok(Request(head[1], a.host, a.port));
        assert s == s[..3] + raw + reader.Pending();
      case Err(_) =>
        assert false;  // raw is always a whole address
    }
  }
}
