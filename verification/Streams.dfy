/** Byte streams cut anywhere: sockets, the buffered reader in front of one, with or without the
    limit reader in between, and relay (proxy.go:303-320, http.go:58-92, http.go:131-178). */
module Streams {
  import opened Common
  import HeaderScanner

  type Bytes = seq<Byte>

  const BUFIO_SIZE := 4096
  const RELAY_BUFFER := 32 * 1024

  /** One end of a connection: what its peer will still deliver before it ends, and what was
      delivered to the peer.  Any operation may fail, which leaves it broken. */
  class Socket {
    var incoming: Bytes
    var written: Bytes
    var broken: bool
    var writeClosed: bool
    var closed: bool

    constructor (incoming: Bytes)
      ensures this.incoming == incoming && written == [] && !broken && !writeClosed && !closed
    {
      this.incoming, written, broken, writeClosed, closed := incoming, [], false, false, false;
    }

    /** Some of what is there, up to `max`; no more only at the end or when broken. */
    method Read(max: nat) returns (chunk: Bytes, ok: bool)
      requires max > 0
      modifies this`incoming, this`broken
      ensures old(incoming) == chunk + incoming && |chunk| <= max
      ensures if ok then chunk != [] && broken == old(broken) else chunk == [] && (broken || incoming == [])
      ensures old(broken) ==> broken
    {
      var fails: bool := *;
      if fails || incoming == [] {
        broken := broken || fails;
        return [], false;
      }
      var n: nat :| 1 <= n <= max && n <= |incoming|;
      chunk, incoming, ok := incoming[..n], incoming[n..], true;
    }

    /** All of it, or a part and an error. */
    method Write(p: Bytes) returns (ok: bool)
      modifies this`written, this`broken
      ensures old(written) <= written <= old(written) + p
      ensures if ok then written == old(written) + p && broken == old(broken) else broken
    {
      ok := *;
      if ok {
        written := written + p;
      } else {
        var n: nat :| n <= |p|;
        written, broken := written + p[..n], true;
        assert p == p[..n] + p[n..];
      }
    }
  }

  // ---- what a buffered reader has before it ----

  /** What is still to be read; what of the stream the limit reader counts, from where it began
      to; and whether an error of the limit reader waits behind the buffered bytes. */
  datatype Inflow = Inflow(pending: Bytes, counted: Bytes, waiting: bool)

  /** How far into the counted bytes the next n lead; not above 0 if they are all buffered from
      before. */
  function Reach(f: Inflow, n: nat): int {
    |f.counted| - |f.pending| + n
  }

  /** The next n bytes can be refused: an old error waits, or the limit is passed on the way. */
  ghost predicate MayRefuse(f: Inflow, n: nat, limit: nat) {
    || (f.waiting && Reach(f, n) > 0)
    || (HeaderScanner.Oversize(f.counted, limit) && Reach(f, n) > limit)
  }

  /** They are refused however the stream is cut: one buffer more than the limit. */
  ghost predicate MustRefuse(f: Inflow, n: nat, limit: nat) {
    HeaderScanner.Oversize(f.counted, limit) && Reach(f, n) > limit + BUFIO_SIZE
  }

  lemma Passed(seen: Bytes, more: Bytes, limit: nat)
    ensures HeaderScanner.Oversize(seen, limit) ==> HeaderScanner.Oversize(seen + more, limit)
    ensures HeaderScanner.Oversize(seen + more, limit) && |seen| > limit ==> HeaderScanner.Oversize(seen, limit)
  {
    HeaderScanner.DecisionsStay(seen, more, limit);
  }

  /** With the buffer used up and the limit passed before the n bytes were there. */
  lemma RefusedMeans(f: Inflow, n: nat, limit: nat, taken: Bytes, seen: Bytes, incoming: Bytes)
    requires f.pending == taken + incoming && f.counted == seen + incoming && |taken| <= n
    requires HeaderScanner.Oversize(seen, limit) || (f.waiting && |taken| < n)
    ensures MayRefuse(f, n, limit)
  {
    Passed(seen, incoming, limit);
  }

  /** With the n bytes there and the limit passed by one buffer at most. */
  lemma NotRefusedMeans(f: Inflow, n: nat, limit: nat, taken: Bytes, buf: Bytes, seen: Bytes, incoming: Bytes)
    requires f.pending == taken + (buf + incoming) && f.counted == seen + incoming && |taken| == n
    requires HeaderScanner.Oversize(seen, limit) ==> |seen| <= limit + BUFIO_SIZE
    ensures !MustRefuse(f, n, limit)
  {
    Passed(seen, incoming, limit);
  }

  /** bufio.Reader over a socket, or over a limit reader over it.  An error that comes with bytes
      is kept until they are used up, whatever becomes of the limit reader meanwhile. */
  class BufReader {
    const conn: Socket
    const limiter: HeaderScanner.HeaderLimitReader?
    var buf: Bytes
    var err: bool  // the limit reader's error, not passed on yet

    constructor (conn: Socket)
      ensures this.conn == conn && limiter == null && buf == [] && Ready()
    {
      this.conn, limiter, buf, err := conn, null, [], false;
    }

    constructor Limited(conn: Socket, limit: nat)
      ensures this.conn == conn && limiter != null && limiter.limit == limit && fresh(Parts())
      ensures buf == [] && !err && Ready() && limiter.seen == []
    {
      this.conn, buf, err := conn, [], false;
      limiter := new HeaderScanner.HeaderLimitReader(limit);
    }

    ghost function Parts(): set<object> {
      if limiter == null then {} else {limiter, limiter.window}
    }

    ghost predicate Ready()
      reads `err, Parts()
    {
      if limiter == null then !err else limiter.Valid()
    }

    /** What a reader of this stream will still get. */
    ghost function Pending(): Bytes
      reads `buf, conn`incoming
    {
      buf + conn.incoming
    }

    ghost function Flow(): Inflow
      reads `buf, `err, conn`incoming, Parts()
    {
      Inflow(Pending(), if limiter == null then [] else limiter.seen + conn.incoming, err)
    }

    /** An error of the limit reader waits from the moment the limit is passed. */
    ghost predicate Steady()
      reads `err, Parts()
    {
      limiter != null && HeaderScanner.Oversize(limiter.seen, limiter.limit) ==>
        err && |limiter.seen| <= limiter.limit + BUFIO_SIZE
    }

    /** An error waited before, or the limit is passed by now. */
    ghost predicate Refused(waited: bool)
      reads Parts()
    {
      limiter != null && (waited || HeaderScanner.Oversize(limiter.seen, limiter.limit))
    }

    /** One read from below.  The limit reader's error comes with the bytes. */
    method ReadBelow(max: nat) returns (chunk: Bytes, ok: bool, refused: bool)
      requires Ready() && max > 0
      modifies conn`incoming, conn`broken, Parts()
      ensures Ready() && (limiter == null ==> !refused)
      ensures old(conn.incoming) == chunk + conn.incoming && |chunk| <= max
      ensures limiter != null ==> limiter.seen == old(limiter.seen) + chunk
      ensures refused ==> chunk != []
      ensures old(Refused(false)) ==> Refused(false)
      ensures limiter != null && chunk != [] ==> (refused <==> HeaderScanner.Oversize(limiter.seen, limiter.limit))
      ensures if ok then chunk != [] && conn.broken == old(conn.broken)
              else chunk == [] && (conn.broken || conn.incoming == [])
      ensures old(conn.broken) ==> conn.broken
    {
      chunk, ok := conn.Read(max);
      refused := false;
      if limiter != null {
        Passed(limiter.seen, chunk, limiter.limit);
        var ended := if conn.broken then HeaderScanner.Broken else HeaderScanner.Eof;
        var n, error := limiter.Read(chunk, if ok then None else Some(ended));
        refused := error == Some(HeaderScanner.HeaderTooLarge);
      }
    }

    /** Into the empty buffer. */
    method Fill() returns (ok: bool)
      requires Ready() && buf == [] && !err
      modifies this`buf, this`err, conn`incoming, conn`broken, Parts()
      ensures Ready() && Pending() == old(Pending()) && Flow().counted == old(Flow().counted)
      ensures limiter != null ==> limiter.seen == old(limiter.seen) + buf && |buf| <= BUFIO_SIZE
      ensures limiter != null && buf != [] ==> (err <==> HeaderScanner.Oversize(limiter.seen, limiter.limit))
      ensures err ==> limiter != null && buf != []
      ensures old(Steady()) ==> Steady()
      ensures old(Refused(false)) ==> Refused(false)
      ensures if ok then buf != [] && conn.broken == old(conn.broken)
              else buf == [] && (conn.broken || conn.incoming == [])
      ensures old(conn.broken) ==> conn.broken
    {
      buf, ok, err := ReadBelow(BUFIO_SIZE);
      if limiter != null {
        Passed(old(limiter.seen), buf, limiter.limit);
        HeaderScanner.DecisionsStay(old(limiter.seen), buf, limiter.limit);
        assert old(limiter.seen) + buf + conn.incoming == old(limiter.seen) + old(conn.incoming);
      }
    }

    method Take(max: nat) returns (part: Bytes)
      requires buf != [] && max > 0
      modifies this`buf
      ensures old(buf) == part + buf && 0 < |part| <= max && (max <= |old(buf)| ==> |part| == max)
      ensures old(Pending()) == part + Pending()
    {
      var k := if max < |buf| then max else |buf|;
      part, buf := buf[..k], buf[k..];
      assert old(buf) == part + buf;
    }

    /** bufio.Reader.Read: what is buffered; then the waiting error, once; then a read from below,
        past the buffer if much is asked for, so that bytes and error come together. */
    method Read(max: nat) returns (part: Bytes, ok: bool)
      requires Ready() && Steady() && max > 0
      modifies this`buf, this`err, conn`incoming, conn`broken, Parts()
      ensures Ready() && Flow().counted == old(Flow().counted)
      ensures old(Pending()) == part + Pending() && |part| <= max
      ensures ok ==> Steady() && part != [] && conn.broken == old(conn.broken)
      ensures ok && max <= |old(buf)| ==> |part| == max
      ensures !ok ==> buf == [] && (conn.broken || (part == [] && Pending() == []) || Refused(old(err)))
      ensures !ok && old(err) ==> part == []
      ensures (err ==> Refused(old(err))) && (old(Refused(false)) ==> Refused(false))
      ensures old(conn.broken) ==> conn.broken
    {
      if buf == [] {
        if err {
          err := false;
          return [], false;
        }
        if max >= BUFIO_SIZE {
          part, ok := ReadPast(max);
          return;
        }
        ok := Fill();
        if !ok {
          return [], false;
        }
      }
      part := Take(max);
      ok := true;
    }

    /** A read as large as the buffer goes past it. */
    method ReadPast(max: nat) returns (part: Bytes, ok: bool)
      requires Ready() && Steady() && max > 0 && buf == [] && !err
      modifies conn`incoming, conn`broken, Parts()
      ensures Ready() && Flow().counted == old(Flow().counted)
      ensures old(Pending()) == part + Pending() && |part| <= max
      ensures ok ==> Steady() && part != [] && conn.broken == old(conn.broken)
      ensures !ok ==> conn.broken || (part == [] && Pending() == []) || Refused(false)
      ensures old(Refused(false)) ==> Refused(false)
      ensures old(conn.broken) ==> conn.broken
    {
      var refused;
      part, ok, refused := ReadBelow(max);
      ok := ok && !refused;
      if limiter != null {
        assert old(limiter.seen) + part + conn.incoming == old(limiter.seen) + old(conn.incoming);
      }
    }

    /** io.ReadFull: exactly n bytes of the stream, or the stream is broken or ends before. */
    method ReadFull(n: nat) returns (bytes: Bytes, ok: bool)
      requires limiter == null && Ready()
      modifies this`buf, this`err, conn`incoming, conn`broken
      ensures Ready() && old(Pending()) == bytes + Pending()
      ensures if ok then |bytes| == n && conn.broken == old(conn.broken)
              else conn.broken || |old(Pending())| < n
      ensures old(conn.broken) ==> conn.broken
    {
      ghost var s := Pending();
      bytes, ok := [], true;
      while |bytes| < n && ok
        invariant |bytes| <= n && Ready() && s == bytes + Pending()
        invariant if ok then conn.broken == old(conn.broken) else conn.broken || |s| < n
        invariant old(conn.broken) ==> conn.broken
        decreases n - |bytes|, ok
      {
        bytes, ok := ReadOn(n, bytes, s);
      }
    }

    method ReadOn(n: nat, taken: Bytes, ghost s: Bytes) returns (bytes: Bytes, ok: bool)
      requires limiter == null && Ready() && s == taken + Pending() && |taken| < n
      modifies this`buf, this`err, conn`incoming, conn`broken
      ensures Ready() && s == bytes + Pending() && |taken| <= |bytes| <= n
      ensures if ok then |taken| < |bytes| && conn.broken == old(conn.broken) else conn.broken || |s| < n
      ensures old(conn.broken) ==> conn.broken
    {
      var part;
      part, ok := Read(n - |taken|);
      bytes := taken + part;
    }

    /** What reads a body: in reads of any sizes, given up at the first error.  It fails for a
        reason in the stream or because the limit reader may refuse it, and always when the limit
        reader must. */
    method ReadBody(n: nat) returns (bytes: Bytes, ok: bool)
      requires Ready() && Steady()
      modifies this`buf, this`err, conn`incoming, conn`broken, Parts()
      ensures Ready() && Flow().counted == old(Flow().counted)
      ensures old(Pending()) == bytes + Pending()
      ensures if ok then |bytes| == n && conn.broken == old(conn.broken)
              else || conn.broken || |old(Pending())| < n
                   || (limiter != null && MayRefuse(old(Flow()), n, limiter.limit))
      ensures ok && limiter != null ==> !MustRefuse(old(Flow()), n, limiter.limit)
      ensures err ==> Refused(old(err))
      ensures old(conn.broken) ==> conn.broken
    {
      ghost var f := Flow();
      bytes, ok := [], true;
      while |bytes| < n && ok
        invariant |bytes| <= n && Within(f, bytes)
        invariant if ok then Steady() && conn.broken == old(conn.broken) else FailsFor(f, n)
        invariant old(conn.broken) ==> conn.broken
        decreases n - |bytes|, ok
      {
        bytes, ok := ReadMore(n, bytes, f);
      }
      if ok && limiter != null {
        NotRefusedMeans(f, n, limiter.limit, bytes, buf, limiter.seen, conn.incoming);
      }
    }

    /** So much has been taken since f. */
    ghost predicate Within(f: Inflow, taken: Bytes)
      reads this`buf, this`err, conn`incoming, Parts()
    {
      Ready() && f.pending == taken + Pending() && f.counted == Flow().counted && (err ==> Refused(f.waiting))
    }

    ghost predicate FailsFor(f: Inflow, n: nat)
      reads conn`broken
    {
      conn.broken || |f.pending| < n || (limiter != null && MayRefuse(f, n, limiter.limit))
    }

    /** One read of a body of which so much is taken. */
    method ReadMore(n: nat, taken: Bytes, ghost f: Inflow) returns (bytes: Bytes, ok: bool)
      requires Within(f, taken) && Steady() && |taken| < n
      modifies this`buf, this`err, conn`incoming, conn`broken, Parts()
      ensures Within(f, bytes) && |taken| <= |bytes| <= n
      ensures if ok then Steady() && |taken| < |bytes| && conn.broken == old(conn.broken) else FailsFor(f, n)
      ensures old(conn.broken) ==> conn.broken
    {
      var max: nat :| 0 < max <= n - |taken|;
      ghost var waited := err;
      var part;
      part, ok := Read(max);
      bytes := taken + part;
      if !ok && !conn.broken && Refused(waited) {
        RefusedMeans(f, n, limiter.limit, bytes, limiter.seen, conn.incoming);
      }
    }

    /** What reads a request head, line by line and never past the buffer.  A look ahead may
        swallow the error that waits. */
    method ReadHead(n: nat) returns (bytes: Bytes, ok: bool)
      requires Ready() && limiter != null && limiter.seen == []
      modifies this`buf, this`err, conn`incoming, conn`broken, Parts()
      ensures Ready() && Flow().counted == old(Flow().counted)
      ensures old(Pending()) == bytes + Pending()
      ensures if ok then |bytes| == n && conn.broken == old(conn.broken)
              else conn.broken || |old(Pending())| < n || Refused(old(err))
      ensures err ==> Refused(old(err))
      ensures old(conn.broken) ==> conn.broken
    {
      ghost var f := Flow();
      bytes, ok := [], true;
      while |bytes| < n
        invariant |bytes| <= n && Within(f, bytes) && ok && conn.broken == old(conn.broken)
        decreases n - |bytes|
      {
        if buf == [] {
          ok := RefillWithin(f, bytes, n);
          if !ok {
            return;
          }
        }
        bytes := TakeWithin(f, bytes, n);
      }
    }

    method TakeWithin(ghost f: Inflow, taken: Bytes, n: nat) returns (bytes: Bytes)
      requires Within(f, taken) && buf != [] && |taken| < n
      modifies this`buf
      ensures Within(f, bytes) && |taken| < |bytes| <= n
    {
      var part := Take(n - |taken|);
      bytes := taken + part;
    }

    method RefillWithin(ghost f: Inflow, taken: Bytes, n: nat) returns (ok: bool)
      requires Within(f, taken) && buf == [] && limiter != null && |taken| < n
      modifies this`buf, this`err, conn`incoming, conn`broken, Parts()
      ensures Within(f, taken)
      ensures if ok then buf != [] && conn.broken == old(conn.broken)
              else conn.broken || |f.pending| < n || Refused(f.waiting)
      ensures old(conn.broken) ==> conn.broken
    {
      ok := Refill();
    }

    /** More for a head; an error that waits ends it or is swallowed. */
    method Refill() returns (ok: bool)
      requires Ready() && buf == []
      modifies this`buf, this`err, conn`incoming, conn`broken, Parts()
      ensures Ready() && Flow().counted == old(Flow().counted) && Pending() == old(Pending())
      ensures if ok then buf != [] && conn.broken == old(conn.broken) else conn.broken || Pending() == [] || old(err)
      ensures (err ==> Refused(false)) && (old(Refused(false)) ==> Refused(false))
      ensures old(conn.broken) ==> conn.broken
    {
      ok := true;
      if err {
        var swallowed: bool := *;
        err, ok := false, swallowed;
      }
      if ok {
        ok := Fill();
      }
    }

    /** Takes out what was read ahead. */
    method DrainBuffered() returns (early: Bytes)
      modifies this`buf
      ensures early == old(buf) && buf == []
    {
      var n := |buf|;
      if n == 0 {
        return [];
      }
      early := Take(n);
    }
  }

  /** One direction of a tunnel: everything that comes in goes out, in order, until the source
      ends or either side breaks; then the end is passed on. */
  method Relay(dst: Socket, src: Socket)
    requires dst != src
    modifies dst`written, dst`broken, dst`writeClosed, src`incoming, src`broken
    ensures dst.writeClosed
    ensures old(dst.written) <= dst.written <= old(dst.written) + old(src.incoming)
    ensures !src.broken && !dst.broken ==> dst.written == old(dst.written) + old(src.incoming) && src.incoming == []
    ensures old(src.broken) ==> src.broken
    ensures old(dst.broken) ==> dst.broken
  {
    var going := true;
    ghost var done: Bytes := [];
    while going
      invariant old(src.incoming) == done + src.incoming
      invariant going ==> dst.written == old(dst.written) + done
      invariant old(dst.written) <= dst.written <= old(dst.written) + done
      invariant !going ==> dst.broken || (dst.written == old(dst.written) + done && (src.broken || src.incoming == []))
      invariant old(src.broken) ==> src.broken
      invariant old(dst.broken) ==> dst.broken
      decreases going, |src.incoming|
    {
      var chunk;
      chunk, going := src.Read(RELAY_BUFFER);
      if going {
        going := dst.Write(chunk);
        done := done + chunk;
      }
    }
    dst.writeClosed := true;
  }

  /** What was read ahead is sent before the relay goes on with the rest, so nothing is lost
      or doubled between the two. */
  method Splice(dst: Socket, reader: BufReader) returns (ok: bool)
    requires dst != reader.conn
    modifies reader`buf, dst`written, dst`broken
    ensures old(dst.written) <= dst.written <= old(dst.written) + old(reader.buf)
    ensures if ok then dst.written == old(dst.written) + old(reader.buf) && dst.broken == old(dst.broken)
            else dst.broken
    ensures reader.buf == []
  {
    var early := reader.DrainBuffered();
    ok := true;
    if |early| > 0 {
      ok := dst.Write(early);
    }
  }
}
