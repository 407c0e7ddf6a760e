/** Why selectRoute answers as it does (route.go:93-161): a route was offered by a prober or by the
    cached path, and there is none only when both probers failed or the timeout came first. */
module RouteReasons {
  import opened Common
  import opened RouteRace
  import opened RouteTheorems

  /** A prober holds this route out. */
  predicate Offers(s: State, r: RouteResult) {
    || (s.ssh.SshOffer? && r == SshResult(s.ssh.conn, s.ssh.client))
    || (s.direct.DirectOffer? && r == DirectResult(s.direct.conn))
  }

  predicate SomeOffer(s: State) {
    s.ssh.SshOffer? || s.direct.DirectOffer?
  }

  /** The timeout has come by position i. */
  ghost predicate Expired(run: seq<State>, i: nat)
    requires i < |run|
  {
    exists j :: 0 <= j < i && ExpiresAt(run, j)
  }

  ghost predicate ExpiresAt(run: seq<State>, j: nat)
    requires j + 1 < |run|
  {
    Expires(run[j], run[j + 1])
  }

  /** Both probers have ended by position i and never had anything to offer. */
  ghost predicate NeverOffered(run: seq<State>, i: nat)
    requires i < |run|
  {
    run[i].ssh.SshDone? && run[i].direct.DirectDone? && forall k :: 0 <= k <= i ==> !SomeOffer(run[k])
  }

  lemma ExpiredStays(run: seq<State>, i: nat)
    requires i + 1 < |run| && Expired(run, i)
    ensures Expired(run, i + 1)
  {
    var j :| 0 <= j < i && ExpiresAt(run, j);
    assert ExpiresAt(run, j);
  }

  /** The caller has a result, or has decided that there is none. */
  predicate Decided(pc: MainPc) {
    pc.Cancelling? || pc.Storing? || pc.GivingUp? || pc.Returning? || pc.Returned?
  }

  /** A context that has ended before the caller decided has timed out. */
  lemma {:induction false} EndsEarlyByTimeout(run: seq<State>, i: nat)
    requires IsRun(run) && i < |run| && run[i].g.ctxDone
    requires !Decided(run[i].main) || run[i].main.GivingUp?
    ensures Expired(run, i)
  {
    if i > 0 {
      assert NextAt(run, i - 1);
      if run[i - 1].g.ctxDone {
        StaysUndecided(run[i - 1], run[i]);
        EndsEarlyByTimeout(run, i - 1);
        ExpiredStays(run, i - 1);
      } else {
        TimesOut(run[i - 1], run[i]);
        assert ExpiresAt(run, i - 1);
      }
    }
  }

  /** Undecided now, so undecided before. */
  lemma StaysUndecided(s: State, s': State)
    requires Next(s, s') && (!Decided(s'.main) || s'.main.GivingUp?)
    ensures !Decided(s.main) || s.main.GivingUp?
  {
  }

  lemma TimesOut(s: State, s': State)
    requires Next(s, s') && !s.g.ctxDone && s'.g.ctxDone && (!Decided(s'.main) || s'.main.GivingUp?)
    ensures Expires(s, s')
  {
  }

  /** While the context lives and nothing is decided, a prober that offers nothing never did. */
  lemma {:induction false} NoOfferYet(run: seq<State>, i: nat)
    requires IsRun(run) && i < |run| && !run[i].g.ctxDone && (!Decided(run[i].main) || run[i].main.GivingUp?)
    ensures OffersStand(run, i)
  {
    if i > 0 {
      StandsBefore(run, i);
      NoOfferYet(run, i - 1);
      assert OffersStand(run, i);
    }
  }

  ghost predicate OffersStand(run: seq<State>, i: nat)
    requires i < |run|
  {
    && (!run[i].ssh.SshOffer? ==> forall k :: 0 <= k <= i ==> !run[k].ssh.SshOffer?)
    && (!run[i].direct.DirectOffer? ==> forall k :: 0 <= k <= i ==> !run[k].direct.DirectOffer?)
  }

  lemma StandsBefore(run: seq<State>, i: nat)
    requires IsRun(run) && 0 < i < |run| && !run[i].g.ctxDone && (!Decided(run[i].main) || run[i].main.GivingUp?)
    ensures !run[i - 1].g.ctxDone && (!Decided(run[i - 1].main) || run[i - 1].main.GivingUp?)
    ensures run[i - 1].ssh.SshOffer? ==> run[i].ssh.SshOffer?
    ensures run[i - 1].direct.DirectOffer? ==> run[i].direct.DirectOffer?
  {
    assert NextAt(run, i - 1);
    InStepAt(run, i - 1);
    OfferStands(run[i - 1], run[i]);
  }

  lemma InStepAt(run: seq<State>, i: nat)
    requires IsRun(run) && i < |run|
    ensures InStep(run[i])
  {
    RunsKeepInv(run, i);
  }

  lemma OfferStands(s: State, s': State)
    requires InStep(s) && Next(s, s') && !s'.g.ctxDone && (!Decided(s'.main) || s'.main.GivingUp?)
    ensures !s.g.ctxDone && (!Decided(s.main) || s.main.GivingUp?)
    ensures s.ssh.SshOffer? ==> s'.ssh.SshOffer?
    ensures s.direct.DirectOffer? ==> s'.direct.DirectOffer?
  {
    if s.g.ctxDone {
      ContextStaysEnded(s, s');
    }
    StaysUndecided(s, s');
  }

  lemma ContextStaysEnded(s: State, s': State)
    requires Next(s, s') && s.g.ctxDone
    ensures s'.g.ctxDone
  {
  }

  lemma {:induction false} EndedStays(run: seq<State>, i: nat, j: nat)
    requires IsRun(run) && i <= j < |run| && run[i].g.ctxDone
    ensures run[j].g.ctxDone
    decreases j
  {
    if i < j {
      EndedStays(run, i, j - 1);
      assert NextAt(run, j - 1);
      ContextStaysEnded(run[j - 1], run[j]);
    }
  }

  predicate Empty(pc: MainPc) {
    pc.GivingUp? || ((pc.Returning? || pc.Returned?) && pc.result == NO_ROUTE)
  }

  /** No route, the negative cache aside, means that both probers failed without ever having a route
      to offer, or that the timeout came first. */
  lemma {:induction false} NoRouteMeans(run: seq<State>, i: nat)
    requires IsRun(run) && i < |run| && Empty(run[i].main) && !FastFail(run[i].g.view)
    ensures Expired(run, i) || NeverOffered(run, i)
  {
    assert i > 0;
    assert NextAt(run, i - 1);
    ViewStays(run[i - 1], run[i]);
    if Empty(run[i - 1].main) {
      NoRouteMeans(run, i - 1);
      StaysWithout(run, i);
    } else {
      GaveUpMeans(run, i);
    }
  }

  lemma StaysWithout(run: seq<State>, i: nat)
    requires 0 < i < |run| && NextAt(run, i - 1) && Empty(run[i - 1].main)
    requires Expired(run, i - 1) || NeverOffered(run, i - 1)
    ensures Expired(run, i) || NeverOffered(run, i)
  {
    if Expired(run, i - 1) {
      ExpiredStays(run, i - 1);
    } else {
      DoneStays(run[i - 1], run[i]);
    }
  }

  /** At the step that gives up. */
  lemma GaveUpMeans(run: seq<State>, i: nat)
    requires IsRun(run) && 0 < i < |run| && !Empty(run[i - 1].main) && Empty(run[i].main)
    requires !FastFail(run[i - 1].g.view)
    ensures Expired(run, i) || NeverOffered(run, i)
  {
    assert NextAt(run, i - 1);
    RunsKeepInv(run, i - 1);
    GivesUpNow(run[i - 1], run[i]);
    if run[i].g.ctxDone {
      EndsEarlyByTimeout(run, i);
    } else {
      BothDone(run, i);
      NoOfferYet(run, i);
    }
  }

  lemma BothDone(run: seq<State>, i: nat)
    requires IsRun(run) && i < |run| && run[i].main.GivingUp? && !run[i].g.ctxDone
    ensures run[i].ssh.SshDone? && run[i].direct.DirectDone?
  {
    RunsKeepInv(run, i);
  }

  lemma DoneStays(s: State, s': State)
    requires Next(s, s') && Empty(s.main) && s.ssh.SshDone? && s.direct.DirectDone?
    ensures s'.ssh.SshDone? && s'.direct.DirectDone? && !SomeOffer(s')
  {
  }

  lemma GivesUpNow(s: State, s': State)
    requires Inv(s) && Next(s, s') && !Empty(s.main) && Empty(s'.main) && !FastFail(s.g.view)
    ensures s'.main.GivingUp?
  {
  }

  /** Some execution of the race returns this. */
  ghost predicate Returns(r: RouteResult) {
    exists run: seq<State> :: IsRun(run) && run[|run| - 1].main == Returned(r)
  }

  /** Whatever is returned was offered: by a prober, or by the cached path. */
  ghost predicate WasOffered(run: seq<State>, i: nat, r: RouteResult)
    requires i < |run|
  {
    exists k :: 0 <= k <= i && (Offers(run[k], r) || run[k].main == CachedStore(r))
  }

  lemma {:induction false} ResultWasOffered(run: seq<State>, i: nat)
    requires IsRun(run) && i < |run| && HasResult(run[i].main) && run[i].main.result != NO_ROUTE
    ensures WasOffered(run, i, run[i].main.result)
  {
    if !run[i].main.CachedStore? {
      assert i > 0;
      assert NextAt(run, i - 1);
      ResultComesFrom(run[i - 1], run[i]);
      if HasResult(run[i - 1].main) {
        ResultWasOffered(run, i - 1);
      }
    }
  }

  lemma ResultComesFrom(s: State, s': State)
    requires Next(s, s') && HasResult(s'.main) && s'.main.result != NO_ROUTE && !s'.main.CachedStore?
    ensures if HasResult(s.main) then s.main.result == s'.main.result else Offers(s, s'.main.result)
  {
  }
}
