/** headerLimitReader (http.go:32-92): counts the bytes of a request head as they are
    delivered, in whatever pieces, until an empty line or the limit. */
module HeaderScanner {
  import opened Common

  const CR: Byte := 13
  const LF: Byte := 10
  const MAX_HTTP_HEADER_BYTES: nat := 64 * 1024

  datatype Error = Eof | Broken | HeaderTooLarge

  // ---- what the scan decides, said of the delivered bytes ----

  /** An empty line ends after the first k bytes.  LF CR LF does not count. */
  predicate EndsAt(bytes: seq<Byte>, k: int) {
    && 0 <= k <= |bytes|
    && (|| (k >= 4 && bytes[k - 4] == CR && bytes[k - 3] == LF && bytes[k - 2] == CR && bytes[k - 1] == LF)
        || (k >= 2 && bytes[k - 2] == LF && bytes[k - 1] == LF))
  }

  ghost predicate FirstEnd(bytes: seq<Byte>, k: int) {
    EndsAt(bytes, k) && forall j :: 0 <= j < k ==> !EndsAt(bytes, j)
  }

  /** The head ends within its limit. */
  ghost predicate Complete(bytes: seq<Byte>, limit: nat) {
    exists k :: FirstEnd(bytes, k) && k <= limit
  }

  ghost predicate Oversize(bytes: seq<Byte>, limit: nat) {
    !Complete(bytes, limit) && |bytes| > limit
  }

  /** Some end means a first end. */
  lemma {:induction false} FirstEndExists(bytes: seq<Byte>, k: nat)
    requires EndsAt(bytes, k)
    ensures exists j :: FirstEnd(bytes, j) && j <= k
    decreases k
  {
    if j :| 0 <= j < k && EndsAt(bytes, j) {
      FirstEndExists(bytes, j);
    } else {
      assert FirstEnd(bytes, k);
    }
  }

  /** What more bytes do not change. */
  lemma EndsStay(bytes: seq<Byte>, more: seq<Byte>, k: int)
    requires k <= |bytes|
    ensures EndsAt(bytes + more, k) <==> EndsAt(bytes, k)
    ensures FirstEnd(bytes + more, k) <==> FirstEnd(bytes, k)
  {
    assert forall j :: 0 <= j <= k ==> (EndsAt(bytes + more, j) <==> EndsAt(bytes, j));
  }

  /** A decision is final, whatever is delivered later, and there is never more than one. */
  lemma DecisionsStay(bytes: seq<Byte>, more: seq<Byte>, limit: nat)
    ensures Complete(bytes, limit) ==> Complete(bytes + more, limit)
    ensures Oversize(bytes, limit) ==> Oversize(bytes + more, limit)
    ensures !(Complete(bytes, limit) && Oversize(bytes, limit))
  {
    if k :| FirstEnd(bytes, k) && k <= limit {
      EndsStay(bytes, more, k);
    }
    if |bytes| > limit && Complete(bytes + more, limit) {
      var k :| FirstEnd(bytes + more, k) && k <= limit;
      EndsStay(bytes, more, k);
    }
  }

  lemma FirstEndIsUnique(bytes: seq<Byte>, j: int, k: int)
    requires FirstEnd(bytes, j) && FirstEnd(bytes, k)
    ensures j == k
  {
  }

  // ---- against the header as net/http reads it ----

  /** An empty line as net/http takes it ends after the first k bytes: LF, perhaps CR, LF. */
  predicate EmptyLineEnds(bytes: seq<Byte>, k: int) {
    && 2 <= k <= |bytes| && bytes[k - 1] == LF
    && (bytes[k - 2] == LF || (k >= 3 && bytes[k - 2] == CR && bytes[k - 3] == LF))
  }

  /** LF CR LF after a line that was ended by LF alone. */
  predicate MixedEnd(bytes: seq<Byte>, k: int) {
    && 3 <= k <= |bytes| && bytes[k - 1] == LF && bytes[k - 2] == CR && bytes[k - 3] == LF
    && (k == 3 || bytes[k - 4] != CR)
  }

  ghost predicate HeaderEnd(bytes: seq<Byte>, k: int) {
    EmptyLineEnds(bytes, k) && forall j :: 0 <= j < k ==> !EmptyLineEnds(bytes, j)
  }

  /** Where the first empty line ends, from here on. */
  function FirstEmptyLine(bytes: seq<Byte>, start: nat): Option<nat>
    decreases |bytes| - start
  {
    if start > |bytes| then None
    else if EmptyLineEnds(bytes, start) then Some(start)
    else FirstEmptyLine(bytes, start + 1)
  }

  lemma {:induction false} FirstEmptyLineMeans(bytes: seq<Byte>, start: nat, h: nat)
    requires forall j :: 0 <= j < start ==> !EmptyLineEnds(bytes, j)
    ensures FirstEmptyLine(bytes, start) == Some(h) <==> HeaderEnd(bytes, h)
    decreases |bytes| - start
  {
    if start <= |bytes| && !EmptyLineEnds(bytes, start) {
      FirstEmptyLineMeans(bytes, start + 1, h);
    }
  }

  /** The scanner sees every end of a header but those. */
  lemma SeesAllButMixedEnds(bytes: seq<Byte>, k: int)
    ensures EndsAt(bytes, k) <==> EmptyLineEnds(bytes, k) && !MixedEnd(bytes, k)
  {
    if EndsAt(bytes, k) && bytes[k - 2] == CR {
      assert bytes[k - 4] == CR;
    }
  }

  // ---- what is read ahead with the request before is not counted ----

  /** Where the line ends that end a header begin: two or four bytes before. */
  function LineEnds(bytes: seq<Byte>, h: nat): nat
    requires 2 <= h <= |bytes|
  {
    if bytes[h - 2] == LF then 2 else 4
  }

  /** Behind r, which was read ahead, the scanner sees the end of a header exactly when it is not
      mixed and its line ends lie wholly behind r. */
  lemma SeenIff(r: seq<Byte>, s: seq<Byte>, h: nat)
    requires HeaderEnd(r + s, h)
    ensures EndsAt(s, h - |r|) <==> !MixedEnd(r + s, h) && |r| + LineEnds(r + s, h) <= h
  {
    SeesAllButMixedEnds(r + s, h);
    var k := h - |r|;
    if k >= 2 {
      assert s[k - 1] == (r + s)[h - 1] && s[k - 2] == (r + s)[h - 2];
      if k >= 4 {
        assert s[k - 3] == (r + s)[h - 3] && s[k - 4] == (r + s)[h - 4];
      }
    }
  }

  /** An end it sees there is an empty line of the whole stream. */
  lemma SeenIsEmptyLine(r: seq<Byte>, s: seq<Byte>, j: int)
    ensures EndsAt(s, j) ==> EmptyLineEnds(r + s, |r| + j)
  {
    if EndsAt(s, j) {
      assert s[j - 1] == (r + s)[|r| + j - 1] && s[j - 2] == (r + s)[|r| + j - 2];
      if s[j - 2] != LF {
        assert s[j - 3] == (r + s)[|r| + j - 3];
      }
    }
  }

  /** What is counted of a header is what lies behind the bytes read ahead; if its end is not seen
      there, whatever follows is counted too, to the next end or the limit. */
  lemma CountsBehindTheReadAhead(r: seq<Byte>, s: seq<Byte>, h: nat, limit: nat)
    requires HeaderEnd(r + s, h)
    ensures EndsAt(s, h - |r|) ==> FirstEnd(s, h - |r|) && (Complete(s, limit) <==> h - |r| <= limit)
    ensures !EndsAt(s, h - |r|) ==> (Complete(s, limit) <==> exists k :: h - |r| < k <= limit && FirstEnd(s, k))
  {
    forall j | 0 <= j < h - |r| ensures !EndsAt(s, j) {
      SeenIsEmptyLine(r, s, j);
    }
    if EndsAt(s, h - |r|) {
      forall k | FirstEnd(s, k) ensures k == h - |r| {
        FirstEndIsUnique(s, k, h - |r|);
      }
    }
  }

  /** Whatever follows the header, and for any limit, the verdict after a read ahead of a bytes is
      the one that the length of the header calls for. */
  ghost predicate LimitsTheHeader(head: seq<Byte>, a: nat) {
    forall more, limit: nat :: a <= |head + more| ==> (Complete((head + more)[a..], limit) <==> |head| <= limit)
  }

  function Filler(n: nat): (bytes: seq<Byte>)
    ensures |bytes| == n && LF !in bytes
  {
    seq(n, _ => 120)
  }

  lemma HeaderStays(head: seq<Byte>, more: seq<Byte>)
    requires HeaderEnd(head, |head|)
    ensures HeaderEnd(head + more, |head|) && MixedEnd(head + more, |head|) == MixedEnd(head, |head|)
  {
    assert forall i :: 0 <= i < |head| ==> (head + more)[i] == head[i];
    assert forall j :: 0 <= j <= |head| ==> (EmptyLineEnds(head + more, j) <==> EmptyLineEnds(head, j));
  }

  /** It is so exactly when nothing was read ahead and the header's end is not a mixed one. */
  lemma LimitsTheHeaderIff(head: seq<Byte>, a: nat)
    requires HeaderEnd(head, |head|)
    ensures LimitsTheHeader(head, a) <==> a == 0 && !MixedEnd(head, |head|)
  {
    if a == 0 && !MixedEnd(head, |head|) {
      forall more, limit: nat | a <= |head + more|
        ensures Complete((head + more)[a..], limit) <==> |head| <= limit
      {
        assert (head + more)[0..] == head + more;
        CountsTheHeader(head, more, limit);
      }
    } else {
      var limit := Misjudged(head, a);
      assert a <= |head + Filler(a)|;
    }
  }

  /** With nothing read ahead and no mixed end it is the header that is counted. */
  lemma NothingAhead(s: seq<Byte>, h: nat, limit: nat)
    requires HeaderEnd(s, h) && !MixedEnd(s, h)
    ensures EndsAt(s, h) && (Complete(s, limit) <==> h <= limit)
  {
    assert [] + s == s;
    SeesAllButMixedEnds(s, h);
    CountsBehindTheReadAhead([], s, h, limit);
  }

  lemma CountsTheHeader(head: seq<Byte>, more: seq<Byte>, limit: nat)
    requires HeaderEnd(head, |head|) && !MixedEnd(head, |head|)
    ensures Complete(head + more, limit) <==> |head| <= limit
  {
    HeaderStays(head, more);
    NothingAhead(head + more, |head|, limit);
  }

  /** A limit at which a header that follows a read ahead, or ends in a mixed end, is misjudged: one
      less than its length if its end is seen, its length if not. */
  lemma Misjudged(head: seq<Byte>, a: nat) returns (limit: nat)
    requires HeaderEnd(head, |head|) && (a > 0 || MixedEnd(head, |head|))
    ensures !(Complete((head + Filler(a))[a..], limit) <==> |head| <= limit)
  {
    var more := Filler(a);
    var r, s := (head + more)[..a], (head + more)[a..];
    HeaderStays(head, more);
    limit := if EndsAt(s, |head| - a) then |head| - 1 else |head|;
    assert r + s == head + more;
    Miscounted(r, s, head, more, limit);
  }

  lemma Miscounted(r: seq<Byte>, s: seq<Byte>, head: seq<Byte>, more: seq<Byte>, limit: nat)
    requires HeaderEnd(head + more, |head|) && r + s == head + more && LF !in more
    requires |r| > 0 || MixedEnd(head + more, |head|)
    requires limit == if EndsAt(s, |head| - |r|) then |head| - 1 else |head|
    ensures !(Complete(s, limit) <==> |head| <= limit)
  {
    if EndsAt(s, |head| - |r|) {
      SeenIff(r, s, |head|);
      CountsBehindTheReadAhead(r, s, |head|, limit);
    } else {
      assert s == (head + more)[|r|..];
      NoEndIn(head, more, |r|);
      NeverComplete(r, s, |head|, limit);
    }
  }

  /** A header whose end is not seen, and none behind it. */
  lemma NeverComplete(r: seq<Byte>, s: seq<Byte>, h: nat, limit: nat)
    requires HeaderEnd(r + s, h) && forall k :: k >= h - |r| ==> !EndsAt(s, k)
    ensures !Complete(s, limit)
  {
    CountsBehindTheReadAhead(r, s, h, limit);
  }

  /** Behind the header there is no LF, so no end. */
  lemma NoEndIn(head: seq<Byte>, body: seq<Byte>, a: nat)
    requires LF !in body && a <= |head + body|
    ensures forall k :: k > |head| - a ==> !EndsAt((head + body)[a..], k)
  {
    var s := (head + body)[a..];
    forall k | k > |head| - a ensures !EndsAt(s, k) {
      if 2 <= k <= |s| {
        assert s[k - 1] == (head + body)[a + k - 1] == body[a + k - 1 - |head|];
      }
    }
  }

  /** A mixed end can come after any line, and then a header within the limit is refused for the
      body behind it. */
  lemma MixedEndsOccur(line: seq<Byte>, body: seq<Byte>, limit: nat)
    requires line != [] && CR !in line + body && LF !in line + body
    requires |line| + 3 <= limit < |line| + 3 + |body|
    ensures HeaderEnd(line + [LF, CR, LF] + body, |line| + 3) && Oversize(line + [LF, CR, LF] + body, limit)
  {
    var bytes, n := line + [LF, CR, LF] + body, |line|;
    assert bytes[n] == LF && bytes[n + 1] == CR && bytes[n + 2] == LF;
    forall i | 0 <= i < |bytes| && !(n <= i < n + 3) ensures bytes[i] != LF {
      assert bytes[i] == (line + body)[if i < n then i else i - 3];
    }
  }

  // ---- the same, one byte after the other ----

  datatype Verdict = Open | Done(at: nat) | TooMany

  ghost function Judge(bytes: seq<Byte>, limit: nat): Verdict {
    if bytes == [] then Open
    else
      var before := Judge(bytes[..|bytes| - 1], limit);
      if before != Open then before
      else if |bytes| > limit then TooMany
      else if EndsAt(bytes, |bytes|) then Done(|bytes|)
      else Open
  }

  lemma JudgeOneMore(bytes: seq<Byte>, b: Byte, limit: nat)
    ensures Judge(bytes + [b], limit)
         == if Judge(bytes, limit) != Open then Judge(bytes, limit)
            else if |bytes| >= limit then TooMany
            else if EndsAt(bytes + [b], |bytes| + 1) then Done(|bytes| + 1)
            else Open
  {
    assert (bytes + [b])[..|bytes|] == bytes;
  }

  lemma {:induction false} JudgementStays(bytes: seq<Byte>, more: seq<Byte>, limit: nat)
    requires Judge(bytes, limit) != Open
    ensures Judge(bytes + more, limit) == Judge(bytes, limit)
    decreases |more|
  {
    if more == [] {
      assert bytes + more == bytes;
    } else {
      var n := |more| - 1;
      JudgementStays(bytes, more[..n], limit);
      JudgeOneMore(bytes + more[..n], more[n], limit);
      assert bytes + more == bytes + more[..n] + [more[n]];
    }
  }

  lemma {:induction false} JudgeMeans(bytes: seq<Byte>, limit: nat)
    ensures Judge(bytes, limit).Done? <==> Complete(bytes, limit)
    ensures Judge(bytes, limit).TooMany? <==> Oversize(bytes, limit)
    ensures Judge(bytes, limit).Done? ==> FirstEnd(bytes, Judge(bytes, limit).at) && Judge(bytes, limit).at <= limit
  {
    if bytes == [] {
      assert !Complete(bytes, limit);
    } else {
      var n := |bytes| - 1;
      var init, b := bytes[..n], bytes[n];
      assert bytes == init + [b];
      JudgeMeans(init, limit);
      DecisionsStay(init, [b], limit);
      if Judge(init, limit).Done? {
        EndsStay(init, [b], Judge(init, limit).at);
      } else if Judge(init, limit).Open? {
        LastByteDecides(init, b, limit);
      }
    }
  }

  lemma LastByteDecides(bytes: seq<Byte>, b: Byte, limit: nat)
    requires !Complete(bytes, limit)
    ensures Complete(bytes + [b], limit) <==> |bytes| < limit && EndsAt(bytes + [b], |bytes| + 1)
    ensures Complete(bytes + [b], limit) ==> FirstEnd(bytes + [b], |bytes| + 1)
  {
    var after := bytes + [b];
    if k :| FirstEnd(after, k) && k <= limit {
      if k <= |bytes| {
        EndsStay(bytes, [b], k);
        assert false;
      }
    } else if |bytes| < limit && EndsAt(after, |bytes| + 1) {
      FirstEndExists(after, |bytes| + 1);
      assert false;
    }
  }

  class HeaderLimitReader {
    const limit: nat
    var remaining: int
    var done: bool
    var tooLarge: bool
    const window: array<Byte>
    var winLen: nat
    ghost var seen: seq<Byte>  // delivered since beginRequest

    /** While undecided, the window holds the last bytes and `remaining` what is left of the
        limit. */
    ghost predicate Valid()
      reads this, window
    {
      && window.Length == 4
      && (match Judge(seen, limit)
          case Open => !done && !tooLarge && remaining == limit - |seen| && WindowOk(seen)
          case Done(at) => done && !tooLarge && remaining == limit - at
          case TooMany => !done && tooLarge && remaining < 0)
    }

    ghost predicate WindowOk(bytes: seq<Byte>)
      reads this, window
    {
      && window.Length == 4
      && winLen == (if |bytes| < 4 then |bytes| else 4)
      && forall i :: 0 <= i < winLen ==> window[i] == bytes[|bytes| - winLen + i]
    }

    constructor (limit: nat)
      ensures Valid() && seen == [] && this.limit == limit && fresh(window)
    {
      this.limit, remaining := limit, limit;
      done, tooLarge, winLen, seen := false, false, 0, [];
      window := new Byte[4](_ => 0);
    }

    method BeginRequest()
      requires window.Length == 4
      modifies this, window
      ensures Valid() && seen == [] && !done && !tooLarge && remaining == limit
    {
      remaining, done, tooLarge, winLen, seen := limit, false, false, 0, [];
      forall i | 0 <= i < 4 {
        window[i] := 0;
      }
    }

    /** `chunk` and `err` are what the underlying reader came back with, any piece of the
        stream; all of it is passed on.  The flags say of the delivered bytes what they should,
        however they were cut. */
    method Read(chunk: seq<Byte>, err: Option<Error>) returns (n: nat, result: Option<Error>)
      requires Valid()
      modifies this, window
      ensures Valid() && seen == old(seen) + chunk && n == |chunk|
      ensures result == if chunk != [] && tooLarge then Some(HeaderTooLarge) else err
      ensures done <==> Complete(seen, limit)
      ensures tooLarge <==> Oversize(seen, limit)
      ensures !tooLarge && !done ==> remaining == limit - |seen|
      ensures done ==> forall k :: FirstEnd(seen, k) ==> remaining == limit - k
    {
      n, result := |chunk|, err;
      if n <= 0 || done {
        Delivered(chunk);
      } else {
        result := Count(chunk, err);
      }
      JudgeMeans(seen, limit);
      if done {
        forall k | FirstEnd(seen, k) ensures remaining == limit - k {
          FirstEndIsUnique(seen, k, Judge(seen, limit).at);
        }
      }
    }

    /** The loop, http.go:64-91. */
    method Count(chunk: seq<Byte>, err: Option<Error>) returns (result: Option<Error>)
      requires Valid() && chunk != [] && !done
      modifies this, window
      ensures Valid() && seen == old(seen) + chunk
      ensures result == if tooLarge then Some(HeaderTooLarge) else err
    {
      var i, stop := 0, false;
      while i < |chunk| && !stop
        invariant 0 <= i <= |chunk| && Valid() && seen == old(seen) + chunk[..i]
        invariant !stop ==> !done
        invariant i > 0 ==> (stop <==> done || tooLarge)
        invariant stop ==> i > 0
      {
        assert chunk[..i + 1] == chunk[..i] + [chunk[i]];
        stop := Scan(chunk[i]);
        i := i + 1;
      }
      assert chunk == chunk[..i] + chunk[i..];
      Delivered(chunk[i..]);
      result := if tooLarge then Some(HeaderTooLarge) else err;
    }

    /** Bytes that are passed on without being looked at change nothing that was decided. */
    ghost method Delivered(more: seq<Byte>)
      requires Valid() && (more == [] || done || tooLarge)
      modifies this`seen
      ensures Valid() && seen == old(seen) + more
    {
      if more != [] {
        JudgementStays(seen, more, limit);
        seen := seen + more;
      } else {
        assert seen + more == seen;
      }
    }

    /** One turn of the loop, http.go:65-89. */
    method Scan(b: Byte) returns (stop: bool)
      requires Valid() && !done
      modifies this, window
      ensures Valid() && seen == old(seen) + [b]
      ensures stop <==> done || tooLarge
    {
      JudgeOneMore(seen, b, limit);
      remaining := remaining - 1;
      if remaining < 0 {
        tooLarge, stop := true, true;
      } else {
        Slide(b);
        done := EndOfHead(seen + [b]);
        stop := done;
      }
      seen := seen + [b];
    }

    method Slide(b: Byte)
      requires WindowOk(seen)
      modifies this`winLen, window
      ensures WindowOk(seen + [b])
    {
      if winLen < 4 {
        window[winLen] := b;
        winLen := winLen + 1;
      } else {
        window[0], window[1], window[2], window[3] := window[1], window[2], window[3], b;
      }
    }

    method EndOfHead(ghost bytes: seq<Byte>) returns (end: bool)
      requires WindowOk(bytes)
      ensures end <==> EndsAt(bytes, |bytes|)
    {
      end := || (winLen == 4 && window[0] == CR && window[1] == LF && window[2] == CR && window[3] == LF)
             || (winLen >= 2 && window[winLen - 1] == LF && window[winLen - 2] == LF);
    }
  }

  // ---- runs: a request, the start of the next, and what follows ----

  const BLANK_LINE: seq<Byte> := [CR, LF, CR, LF]

  lemma PlainHead(n: nat, more: seq<Byte>)
    ensures HeaderEnd(Filler(n) + BLANK_LINE + more, n + 4) && !MixedEnd(Filler(n) + BLANK_LINE + more, n + 4)
    ensures LineEnds(Filler(n) + BLANK_LINE + more, n + 4) == 4
  {
    var bytes := Filler(n) + BLANK_LINE + more;
    assert bytes[n] == CR && bytes[n + 1] == LF && bytes[n + 2] == CR && bytes[n + 3] == LF;
    assert forall i :: 0 <= i < n ==> bytes[i] == Filler(n)[i];
  }

  /** The first bytes of a head come with the request before: a head longer than the limit is
      passed on, and counted as done. */
  method PassOverlong(first: seq<Byte>, limit: nat) returns (l: HeaderLimitReader, r: seq<Byte>, rest: seq<Byte>)
    requires limit >= 4
    ensures HeaderEnd(r + rest, limit + 4) && !MixedEnd(r + rest, limit + 4)
    ensures fresh(l) && l.limit == limit && l.Valid() && l.seen == rest && l.done && !l.tooLarge
  {
    var head := Filler(limit) + BLANK_LINE;
    r, rest := head[..4], head[4..];
    l := new HeaderLimitReader(limit);
    var n, result := l.Read(first + r, None);
    l.BeginRequest();
    n, result := l.Read(rest, None);
    assert r + rest == Filler(limit) + BLANK_LINE + [];
    PlainHead(limit, []);
    SeenIff(r, rest, limit + 4);
    CountsBehindTheReadAhead(r, rest, limit + 4, limit);
  }

  /** The whole head comes with the request before: then its body is counted, and refused. */
  method RefuseBody(first: seq<Byte>, n: nat, limit: nat)
    returns (l: HeaderLimitReader, r: seq<Byte>, rest: seq<Byte>, result: Option<Error>)
    requires n + 4 <= limit
    ensures HeaderEnd(r + rest, n + 4) && !MixedEnd(r + rest, n + 4)
    ensures fresh(l) && l.limit == limit && l.Valid() && l.seen == rest && l.tooLarge && result == Some(HeaderTooLarge)
  {
    r, rest := Filler(n) + BLANK_LINE, Filler(limit + 1);
    l := new HeaderLimitReader(limit);
    var k;
    k, result := l.Read(first + r, None);
    l.BeginRequest();
    k, result := l.Read(rest, None);
    PlainHead(n, rest);
    assert forall i :: 0 <= i < |rest| ==> rest[i] in rest;
  }
}
