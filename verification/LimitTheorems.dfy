/** What the limit reader does to a session (http.go:32-92, http.go:307, http.go:369-377): when a
    head is judged by its length, and when a body that is all there is refused. */
module LimitTheorems {
  import opened Common
  import opened Streams
  import Scan = HeaderScanner
  import opened SessionLog
  import opened SessionTheorems

  /** The scanner sees the end of a head of h bytes behind what was read ahead. */
  predicate EndSeen(f: Inflow, h: nat) {
    Scan.EndsAt(f.counted, h - ReadAhead(f))
  }

  /** With nothing read ahead, it does so exactly when the end is not a mixed one; else the line ends
      must lie behind what was read ahead, too. */
  lemma EndSeenIff(f: Inflow, h: nat)
    requires Counts(f) && Scan.HeaderEnd(f.pending, h)
    ensures EndSeen(f, h) <==> !Scan.MixedEnd(f.pending, h) && ReadAhead(f) + Scan.LineEnds(f.pending, h) <= h
    ensures ReadAhead(f) == 0 ==> (EndSeen(f, h) <==> !Scan.MixedEnd(f.pending, h))
  {
    var a := ReadAhead(f);
    assert f.pending == f.pending[..a] + f.counted;
    Scan.SeenIff(f.pending[..a], f.counted, h);
    Scan.SeesAllButMixedEnds(f.pending, h);
  }

  // ---- heads ----

  /** With nothing read ahead and no mixed end, a head is refused for its length and for nothing
      else. */
  lemma HeadsAreLimited(f: Inflow, h: nat)
    requires Counts(f) && ReadAhead(f) == 0 && Scan.HeaderEnd(f.pending, h) && !Scan.MixedEnd(f.pending, h)
    ensures Scan.Oversize(f.counted, LIMIT) <==> h > LIMIT
    ensures HeadFits(f, h) <==> h <= LIMIT
  {
    Scan.NothingAhead(f.counted, h, LIMIT);
  }

  // ---- bodies ----

  /** A head whose end is seen and that was not refused is counted to its end and no further. */
  lemma SeenIsDone(f: Inflow, h: nat)
    requires Counts(f) && Scan.HeaderEnd(f.pending, h) && EndSeen(f, h) && HeadFits(f, h)
    ensures !Scan.Oversize(f.counted, LIMIT)
  {
    var a := ReadAhead(f);
    assert f.pending == f.pending[..a] + f.counted;
    Scan.CountsBehindTheReadAhead(f.pending[..a], f.counted, h, LIMIT);
  }

  /** A stream of which the first a bytes are read ahead, with or without an error behind them. */
  function Begun(s: Bytes, a: nat, waiting: bool): Inflow
    requires a <= |s|
  {
    Inflow(s, s[a..], waiting)
  }

  /** Whatever body follows the head, it is not refused. */
  ghost predicate NeverRefused(head: Bytes, a: nat, waiting: bool) {
    forall body: Bytes :: a <= |head + body| && HeadFits(Begun(head + body, a, waiting), |head|) ==>
      !MayRefuse(BehindHead(Begun(head + body, a, waiting), |head|), |body|, LIMIT)
  }

  /** It is so exactly when the end of the head is not a mixed one and its line ends were not read
      ahead with the request before, and no old error waits, unless the head is over the limit and
      not read at all.  So it is when nothing was read ahead, unless the end is mixed. */
  lemma NeverRefusedIff(head: Bytes, a: nat, waiting: bool)
    requires Scan.HeaderEnd(head, |head|)
    ensures NeverRefused(head, a, waiting) <==>
              && !Scan.MixedEnd(head, |head|) && a + Scan.LineEnds(head, |head|) <= |head|
              && (!waiting || |head| - a > LIMIT)
  {
    var body := Scan.Filler(a + LIMIT + BUFIO_SIZE + 1);
    if Scan.MixedEnd(head, |head|) || a + Scan.LineEnds(head, |head|) > |head| {
      UnseenIsRefused(head, a, waiting, body);
    } else if waiting && |head| - a <= LIMIT {
      SeenFits(head, a, waiting, body);
      assert MayRefuse(BehindHead(Begun(head + body, a, waiting), |head|), |body|, LIMIT);
    } else {
      forall body: Bytes | a <= |head + body| && HeadFits(Begun(head + body, a, waiting), |head|)
        ensures !MayRefuse(BehindHead(Begun(head + body, a, waiting), |head|), |body|, LIMIT)
      {
        SeenFits(head, a, waiting, body);
        SeenIsDone(Begun(head + body, a, waiting), |head|);
      }
    }
  }

  lemma SeenFits(head: Bytes, a: nat, waiting: bool, body: Bytes)
    requires Scan.HeaderEnd(head, |head|) && a <= |head + body|
    requires !Scan.MixedEnd(head, |head|) && a + Scan.LineEnds(head, |head|) <= |head|
    ensures var f := Begun(head + body, a, waiting);
            && Counts(f) && Scan.HeaderEnd(f.pending, |head|) && EndSeen(f, |head|)
            && (HeadFits(f, |head|) <==> |head| - a <= LIMIT)
  {
    Scan.HeaderStays(head, body);
    EndSeenIff(Begun(head + body, a, waiting), |head|);
  }

  /** Otherwise a body long enough and without an empty line is always refused: behind a mixed end,
      and behind a head that was read ahead. */
  lemma UnseenIsRefused(head: Bytes, a: nat, waiting: bool, body: Bytes)
    requires Scan.HeaderEnd(head, |head|) && (Scan.MixedEnd(head, |head|) || a + Scan.LineEnds(head, |head|) > |head|)
    requires Scan.LF !in body && |body| > a + LIMIT + BUFIO_SIZE
    ensures var f := Begun(head + body, a, waiting);
            HeadFits(f, |head|) && MustRefuse(BehindHead(f, |head|), |body|, LIMIT)
  {
    var f := Begun(head + body, a, waiting);
    Scan.HeaderStays(head, body);
    EndSeenIff(f, |head|);
    NeverComplete(head, a, body);
  }

  lemma NeverComplete(head: Bytes, a: nat, body: Bytes)
    requires Scan.HeaderEnd(head + body, |head|) && a <= |head + body| && Scan.LF !in body
    requires !Scan.EndsAt((head + body)[a..], |head| - a)
    ensures !Scan.Complete((head + body)[a..], LIMIT)
  {
    var r, s := (head + body)[..a], (head + body)[a..];
    assert r + s == head + body;
    Scan.NoEndIn(head, body, a);
    Scan.NeverComplete(r, s, |head|, LIMIT);
  }

  /** A body that must be refused is not sent whole, and the client of a plain request hears nothing
      of it, though both connections are sound. */
  lemma RefusedIsNotSent(http: Http, req: HttpRequest, f: Inflow, c: Course)
    requires Fits(http, req, f, c) && MustRefuse(f, req.body, LIMIT) && !Lost(c)
    ensures c.Plain? ==> c.exchange.SendFailed? && TextOf(http, req, c) == ContinueText(http, req)
    ensures c.Upgraded? ==> c.upgrade.NotSent?
  {
  }

  // ---- sessions ----

  /** A request is sent whole unless its body is not there or a connection breaks. */
  predicate SentUnlessLost(t: Turn) {
    var f := BehindHead(t.begun, t.req.head);
    && (t.course.Plain? && t.course.exchange.SendFailed? ==> t.course.exchange.lost || |f.pending| < t.req.body)
    && (t.course.Upgraded? && t.course.upgrade.NotSent? ==> t.course.upgrade.lost || |f.pending| < t.req.body)
  }

  lemma SeenTurn(http: Http, start: Inflow, past: seq<Turn>, t: Turn)
    requires TurnFits(http, start, past, t) && EndSeen(t.begun, t.req.head) && !t.begun.waiting
    ensures SentUnlessLost(t) && !Scan.Oversize(t.begun.counted, LIMIT)
  {
    Scan.FirstEmptyLineMeans(t.begun.pending, 0, t.req.head);
    SeenIsDone(t.begun, t.req.head);
  }

  /** The ends of all heads are seen. */
  predicate AllSeen(turns: seq<Turn>) {
    forall i :: 0 <= i < |turns| ==> EndSeen(turns[i].begun, turns[i].req.head)
  }

  /** They are if nothing was read ahead and no end is mixed. */
  lemma NothingAheadIsSeen(http: Http, start: Inflow, turns: seq<Turn>)
    requires Framed(http, start, turns)
    requires forall i :: 0 <= i < |turns| ==>
               ReadAhead(turns[i].begun) == 0 && !Scan.MixedEnd(turns[i].begun.pending, turns[i].req.head)
    ensures AllSeen(turns)
  {
    forall i | 0 <= i < |turns| ensures EndSeen(turns[i].begun, turns[i].req.head) {
      FramedMeans(http, start, turns, i);
      Scan.FirstEmptyLineMeans(turns[i].begun.pending, 0, turns[i].req.head);
      EndSeenIff(turns[i].begun, turns[i].req.head);
    }
  }

  /** Then no error is left for the requests that follow. */
  lemma {:induction false} NoneWaits(http: Http, start: Inflow, turns: seq<Turn>, i: nat)
    requires Framed(http, start, turns) && AllSeen(turns) && !start.waiting && i < |turns|
    ensures SentUnlessLost(turns[i]) && !turns[i].begun.waiting && !Scan.Oversize(turns[i].begun.counted, LIMIT)
  {
    FramedMeans(http, start, turns, i);
    if i > 0 {
      NoneWaits(http, start, turns, i - 1);
      assert turns[..i][|turns[..i]| - 1] == turns[i - 1];
    }
    SeenTurn(http, start, turns[..i], turns[i]);
  }

  /** In a session all of whose heads are seen, every request is sent whole unless its body is not
      there or a connection breaks, and the session ends unread only if the next head is no request
      or the connection breaks. */
  lemma SeenSession(http: Http, start: Inflow, turns: seq<Turn>, e: Ending)
    requires SessionFits(http, start, turns, e) && AllSeen(turns) && !start.waiting
    ensures forall i :: 0 <= i < |turns| ==> SentUnlessLost(turns[i])
    ensures e.Unread? ==> e.lost || http.Request(e.begun.pending).None?
  {
    forall i | 0 <= i < |turns| ensures SentUnlessLost(turns[i]) {
      NoneWaits(http, start, turns, i);
    }
    NoneWaits(http, start, turns, |turns| - 1);
  }
}
