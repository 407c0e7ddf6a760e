/** What holds of name resolution in every reachable state. */
module DnsTheorems {
  import opened Common
  import opened Dns
  import opened DnsInvariants

  ghost predicate Reachable(s: State) {
    exists run :: IsRun(run) && run[|run| - 1] == s
  }

  lemma {:induction false} RunsKeepInv(run: seq<State>, i: nat)
    requires IsRun(run) && i < |run|
    ensures Inv(run[i])
  {
    if i == 0 {
      InitInv(run[0]);
    } else {
      RunsKeepInv(run, i - 1);
      assert NextAt(run, i - 1);
      NextKeepsInv(run[i - 1], run[i]);
    }
  }

  lemma ReachableInv(s: State)
    requires Reachable(s)
    ensures Inv(s)
  {
    var run :| IsRun(run) && run[|run| - 1] == s;
    RunsKeepInv(run, |run| - 1);
  }

  /** Between its registration and its publication. */
  predicate LeadsFor(pc: Pc, h: Host) {
    (pc.LookUp? || pc.Publish?) && pc.host == h
  }

  /** A host is in the flight map exactly when one goroutine is its leader, and never two. */
  lemma OneLeaderPerHost(s: State, h: Host)
    requires Reachable(s)
    ensures h in s.g.inflight <==> exists p :: LeadsFor(s.Pc(p), h)
    ensures forall p, q :: LeadsFor(s.Pc(p), h) && LeadsFor(s.Pc(q), h) ==> p == q
    ensures forall p :: LeadsFor(s.Pc(p), h) ==>
              s.g.inflight[h] == s.Pc(p).f < |s.g.flights| && s.g.flights[s.Pc(p).f].leader == p
  {
    ReachableInv(s);
    forall p ensures PcOk(s.g, p, s.Pc(p)) {}
    if h in s.g.inflight {
      var f := s.g.inflight[h];
      var p := s.g.flights[f].leader;
      assert Leads(s.Pc(p), f);
      assert LeadsFor(s.Pc(p), h);
    }
  }

  /** A leader takes its own entry out of the flight map and no other. */
  lemma LeaderDeletesItsOwn(s: State, p: Pid, s': State, h: Host)
    requires Reachable(s) && Step(s, p, s') && h in s.g.inflight && h !in s'.g.inflight
    ensures LeadsFor(s.Pc(p), h) && s.Pc(p).f == s.g.inflight[h]
    ensures s'.g.inflight == s.g.inflight - {h}
  {
    ReachableInv(s);
    assert PcOk(s.g, p, s.Pc(p));
  }

  /** A waiter's flight is done, or its leader is still at work and can take its next step. */
  lemma WaitersAreServed(s: State, p: Pid)
    requires Reachable(s) && s.Pc(p).Wait?
    ensures var f := s.Pc(p).f;
            && f < |s.g.flights|
            && s.g.flights[f].host == s.Pc(p).host
            && (|| s.g.flights[f].done
                || (Leads(s.Pc(s.g.flights[f].leader), f) && exists s' :: Step(s, s.g.flights[f].leader, s')))
  {
    ReachableInv(s);
    assert PcOk(s.g, p, s.Pc(p));
    var f := s.Pc(p).f;
    if !s.g.flights[f].done {
      LeaderCanMove(s, s.g.flights[f].leader, f);
    }
  }

  lemma LeaderCanMove(s: State, p: Pid, f: FlightId)
    requires Inv(s) && Leads(s.Pc(p), f)
    ensures exists s' :: Step(s, p, s')
  {
    assert PcOk(s.g, p, s.Pc(p));
    var g', pc' := LeaderSteps(s.g, p, s.Pc(p), f);
    var s' := State(g', s.procs[p := pc']);
    assert Step(s, p, s');
  }

  lemma LeaderSteps(g: Shared, p: Pid, pc: Pc, f: FlightId) returns (g': Shared, pc': Pc)
    requires Leads(pc, f) && f < |g.flights| && g.cap >= 1
    ensures LocalStep(g, p, pc, g', pc')
  {
    if pc.LookUp? {
      g', pc' := g, Publish(pc.host, f, [], [], g.now);
    } else if pc.Publish? {
      g', pc' := CanPublish(g, p, pc);
    } else {
      g', pc' := CanSignal(g, p, pc);
    }
  }

  lemma CanPublish(g: Shared, p: Pid, pc: Pc) returns (g': Shared, pc': Pc)
    requires pc.Publish? && pc.f < |g.flights| && g.cap >= 1
    ensures LeadStep(g, p, pc, g', pc')
  {
    var cache' := SomeStore(g.cache, pc.host, pc.ips, pc.at, g.cap, g.ttl);
    g', pc' := AfterPublish(g, pc, cache'), Signal(pc.host, pc.f, pc.found, pc.ips);
  }

  /** What a publication that leaves this cache leaves. */
  function AfterPublish(g: Shared, pc: Pc, cache': map<Host, Entry>): Shared
    requires pc.Publish? && pc.f < |g.flights|
  {
    Shared(cache', g.inflight - {pc.host}, g.flights[pc.f := g.flights[pc.f].(found := pc.found, ips := pc.ips)],
           g.cap, g.ttl, g.now, g.log + [Published(pc.host, pc.found, pc.ips, pc.at, g.cache.Keys - cache'.Keys)])
  }

  lemma PublishIsAStep(g: Shared, p: Pid, pc: Pc, cache': map<Host, Entry>)
    requires pc.Publish? && pc.f < |g.flights| && Stores(g.cache, pc.host, pc.ips, pc.at, g.cap, g.ttl, cache')
    ensures LocalStep(g, p, pc, AfterPublish(g, pc, cache'), Signal(pc.host, pc.f, pc.found, pc.ips))
  {
  }

  lemma CanSignal(g: Shared, p: Pid, pc: Pc) returns (g': Shared, pc': Pc)
    requires pc.Signal? && pc.f < |g.flights|
    ensures LeadStep(g, p, pc, g', pc')
  {
    g' := g.(flights := g.flights[pc.f := g.flights[pc.f].(done := true)]);
    pc' := Done(pc.host, AnswerOf(pc.ips), FromFlight(pc.f));
  }

  /** There is always something to evict from a full cache. */
  lemma SomeStore(cache: map<Host, Entry>, host: Host, ips: seq<IpAddr>, at: Time, cap: nat, ttl: Time)
    returns (cache': map<Host, Entry>)
    requires cap >= 1
    ensures Stores(cache, host, ips, at, cap, ttl, cache')
  {
    cache' := cache;
    if ips != [] {
      var room := cache;
      if host !in cache && |cache| >= cap {
        room := Unexpired(cache, at);
        if |room| >= cap {
          var victim := OldestOf(room);
          room := room - {victim};
        }
      }
      assert MakesRoom(cache, host, at, cap, room);
      cache' := room[host := Entry(ips, at + ttl)];
    }
  }

  lemma {:induction false} OldestOf(cache: map<Host, Entry>) returns (victim: Host)
    requires |cache| > 0
    ensures Oldest(cache, victim)
  {
    victim :| victim in cache;
    var rest := cache - {victim};
    if |rest| > 0 {
      var other := OldestOf(rest);
      if cache[other].expire < cache[victim].expire {
        victim := other;
      }
      forall h | h in cache ensures cache[victim].expire <= cache[h].expire {
        assert h in rest || h !in rest;
      }
    } else {
      assert cache.Keys == rest.Keys + {victim} == {victim};
    }
  }

  /** All who return from the same flight return the same addresses: the ones its leader
      found for the host, IPv4 first. */
  lemma FlightAnswersAgree(s: State, p: Pid, q: Pid)
    requires Reachable(s)
    requires s.Pc(p).Done? && s.Pc(p).source.FromFlight?
    requires s.Pc(q).Done? && s.Pc(q).source == s.Pc(p).source
    ensures s.Pc(p).answer == s.Pc(q).answer && s.Pc(p).host == s.Pc(q).host
    ensures s.Pc(p).source.f < |s.g.flights| && s.Pc(p).answer == AnswerOf(s.g.flights[s.Pc(p).source.f].ips)
    ensures s.Pc(p).answer.Addresses? ==> s.Pc(p).answer.ips != [] && V4First(s.Pc(p).answer.ips)
  {
    ReachableInv(s);
    assert PcOk(s.g, p, s.Pc(p)) && PcOk(s.g, q, s.Pc(q));
  }

  /** What a finished flight found is final. */
  lemma FinishedFlightsAreFinal(s: State, s': State, f: FlightId)
    requires Reachable(s) && Next(s, s') && f < |s.g.flights| && s.g.flights[f].done
    ensures f < |s'.g.flights| && s'.g.flights[f] == s.g.flights[f]
  {
    ReachableInv(s);
    if !Tick(s, s') {
      var p :| Step(s, p, s');
      assert PcOk(s.g, p, s.Pc(p));
      StepKeeps(s.g, p, s.Pc(p), s'.g, s'.Pc(p));
    }
  }

  /** Writing over an entry never lowers its expiry. */
  lemma OverwriteNeverLowersExpiry(s: State, s': State, h: Host)
    requires Reachable(s) && Next(s, s') && h in s.g.cache && h in s'.g.cache
    ensures s.g.cache[h].expire <= s'.g.cache[h].expire
  {
    ReachableInv(s);
    if !Tick(s, s') {
      var p :| Step(s, p, s');
      assert PcOk(s.g, p, s.Pc(p));
      StepKeepsExpiry(s.g, p, s.Pc(p), s'.g, s'.Pc(p), h);
    }
  }

  lemma StepKeepsExpiry(g: Shared, p: Pid, pc: Pc, g': Shared, pc': Pc, h: Host)
    requires SharedOk(g) && PcOk(g, p, pc) && LocalStep(g, p, pc, g', pc') && h in g.cache && h in g'.cache
    ensures g.cache[h].expire <= g'.cache[h].expire
  {
    if pc.Publish? {
      StoresKeepsOthers(g.cache, pc.host, pc.ips, pc.at, g.cap, g.ttl, g'.cache);
    }
  }

  /** Leaders of one host publish in the order in which their lookups ended. */
  lemma PublishedInLookupOrder(s: State)
    requires Reachable(s)
    ensures forall i, j :: 0 <= i < j < |s.g.log| && s.g.log[i].host == s.g.log[j].host ==>
              s.g.log[i].at <= s.g.log[j].at
  {
    ReachableInv(s);
  }

  ghost predicate StoredAt(log: seq<Event>, i: int, h: Host, ips: seq<IpAddr>)
    requires 0 <= i < |log|
  {
    log[i].host == h && ips != [] && log[i].ips == ips
  }

  ghost predicate NeitherSince(log: seq<Event>, i: int, h: Host) {
    forall j :: i < j < |log| && 0 <= j ==> !(log[j].host == h && log[j].ips != []) && h !in log[j].evicted
  }

  lemma {:induction false} LatestMeans(log: seq<Event>, h: Host, ttl: Time)
    ensures Latest(log, h, ttl).Some? ==>
              exists i :: 0 <= i < |log| && StoredAt(log, i, h, Latest(log, h, ttl).value.ips)
                       && Latest(log, h, ttl).value.expire == log[i].at + ttl && NeitherSince(log, i, h)
    ensures Latest(log, h, ttl) == None ==>
              forall i :: 0 <= i < |log| && log[i].host == h && log[i].ips != [] ==>
                exists j :: i < j < |log| && h in log[j].evicted
  {
    if log != [] {
      var n := |log| - 1;
      var e := log[n];
      var before := log[..n];
      LatestMeans(before, h, ttl);
      if e.host == h && e.ips != [] {
        assert StoredAt(log, n, h, e.ips) && NeitherSince(log, n, h);
      } else if h !in e.evicted {
        if Latest(before, h, ttl).Some? {
          var i :| 0 <= i < |before| && StoredAt(before, i, h, Latest(before, h, ttl).value.ips)
                && Latest(before, h, ttl).value.expire == before[i].at + ttl && NeitherSince(before, i, h);
          NeitherSinceGrows(log, i, h);
          assert StoredAt(log, i, h, Latest(log, h, ttl).value.ips) && NeitherSince(log, i, h);
        } else {
          forall i | 0 <= i < |log| && log[i].host == h && log[i].ips != []
            ensures exists j :: i < j < |log| && h in log[j].evicted
          {
            assert before[i] == log[i];
            var j :| i < j < |before| && h in before[j].evicted;
            assert h in log[j].evicted;
          }
        }
      }
    }
  }

  lemma NeitherSinceGrows(log: seq<Event>, i: int, h: Host)
    requires log != [] && 0 <= i < |log| - 1 && NeitherSince(log[..|log| - 1], i, h)
    requires !(log[|log| - 1].host == h && log[|log| - 1].ips != []) && h !in log[|log| - 1].evicted
    ensures NeitherSince(log, i, h)
  {
    var before := log[..|log| - 1];
    forall j | i < j < |log| ensures !(log[j].host == h && log[j].ips != []) && h !in log[j].evicted {
      if j < |before| {
        assert before[j] == log[j];
      }
    }
  }

  /** An entry is the latest non-empty lookup of its host since the host was last evicted,
      and a host without an entry has been evicted since every one of its own. */
  lemma CacheIsTheLatestLookup(s: State, h: Host)
    requires Reachable(s)
    ensures h in s.g.cache ==>
              exists i :: 0 <= i < |s.g.log| && StoredAt(s.g.log, i, h, s.g.cache[h].ips)
                       && s.g.cache[h].expire == s.g.log[i].at + s.g.ttl && NeitherSince(s.g.log, i, h)
    ensures h !in s.g.cache ==>
              forall i :: 0 <= i < |s.g.log| && s.g.log[i].host == h && s.g.log[i].ips != [] ==>
                exists j :: i < j < |s.g.log| && h in s.g.log[j].evicted
  {
    ReachableInv(s);
    LatestMeans(s.g.log, h, s.g.ttl);
  }

  // ---- nothing found is lost ----

  /** What the resolver found, put in order. */
  ghost predicate Arranged(found: seq<IpAddr>, ips: seq<IpAddr>) {
    ips == Ipv4First(found)
  }

  ghost predicate AllArranged(s: State) {
    && (forall f :: 0 <= f < |s.g.flights| ==> Arranged(s.g.flights[f].found, s.g.flights[f].ips))
    && (forall i :: 0 <= i < |s.g.log| ==> Arranged(s.g.log[i].found, s.g.log[i].ips))
    && (forall p :: s.Pc(p).Publish? ==> Arranged(s.Pc(p).found, s.Pc(p).ips))
  }

  lemma StepArranges(s: State, p: Pid, s': State)
    requires AllArranged(s) && Step(s, p, s')
    ensures AllArranged(s')
  {
    forall q | s'.Pc(q).Publish? ensures Arranged(s'.Pc(q).found, s'.Pc(q).ips) {
      if q != p {
        assert s'.Pc(q) == s.Pc(q);
      }
    }
  }

  lemma {:induction false} RunsArrange(run: seq<State>, i: nat)
    requires IsRun(run) && i < |run|
    ensures AllArranged(run[i])
  {
    if i > 0 {
      RunsArrange(run, i - 1);
      assert NextAt(run, i - 1);
      if Tick(run[i - 1], run[i]) {
        assert forall p :: run[i].Pc(p) == run[i - 1].Pc(p);
      } else {
        var p :| Step(run[i - 1], p, run[i]);
        StepArranges(run[i - 1], p, run[i]);
      }
    }
  }

  lemma ReachableArranged(s: State)
    requires Reachable(s)
    ensures AllArranged(s)
  {
    var run :| IsRun(run) && run[|run| - 1] == s;
    RunsArrange(run, |run| - 1);
  }

  /** What a flight answers with is what its leader found, all of it, put in order. */
  lemma FlightsLoseNothing(s: State, f: FlightId) returns (from: seq<nat>)
    requires Reachable(s) && f < |s.g.flights|
    ensures var fl := s.g.flights[f];
            PlacedFrom(fl.found, fl.ips, from) && V4First(fl.ips) && KeepsOrder(fl.ips, from)
  {
    ReachableArranged(s);
    from := Ipv4FirstPlaces(s.g.flights[f].found);
  }

  /** And so is what the cache holds: of the last lookup that found something, all of it. */
  lemma CacheLosesNothing(s: State, h: Host) returns (i: nat, from: seq<nat>)
    requires Reachable(s) && h in s.g.cache
    ensures i < |s.g.log| && s.g.log[i].host == h && NeitherSince(s.g.log, i, h)
    ensures s.g.cache[h].expire == s.g.log[i].at + s.g.ttl
    ensures var ips := s.g.cache[h].ips;
            PlacedFrom(s.g.log[i].found, ips, from) && V4First(ips) && KeepsOrder(ips, from)
  {
    CacheIsTheLatestLookup(s, h);
    i :| 0 <= i < |s.g.log| && StoredAt(s.g.log, i, h, s.g.cache[h].ips)
         && s.g.cache[h].expire == s.g.log[i].at + s.g.ttl && NeitherSince(s.g.log, i, h);
    ReachableArranged(s);
    from := Ipv4FirstPlaces(s.g.log[i].found);
  }

  /** The cache never exceeds its bound, never has an entry for the empty host, and lists
      IPv4 addresses first. */
  lemma CacheIsBounded(s: State)
    requires Reachable(s)
    ensures |s.g.cache| <= s.g.cap
    ensures "" !in s.g.cache
    ensures forall h :: h in s.g.cache ==> s.g.cache[h].ips != [] && V4First(s.g.cache[h].ips)
  {
    ReachableInv(s);
  }

  /** A lookup that found addresses is always stored, and at the price of an entry only when
      a new host meets a full cache: then what has expired goes, or one that expires first. */
  lemma FoundIsStored(s: State, p: Pid, s': State)
    requires Reachable(s) && Step(s, p, s') && s.Pc(p).Publish? && s.Pc(p).ips != []
    ensures var pc := s.Pc(p);
            && pc.host in s'.g.cache && s'.g.cache[pc.host] == Entry(pc.ips, pc.at + s.g.ttl)
            && (s.g.cache.Keys <= s'.g.cache.Keys || (pc.host !in s.g.cache && |s.g.cache| == s.g.cap))
            && (|| (forall h :: h in s.g.cache && h !in s'.g.cache ==> s.g.cache[h].expire < pc.at)
                || (exists victim :: s.g.cache.Keys - s'.g.cache.Keys == {victim} && Oldest(s.g.cache, victim)
                                  && pc.at <= s.g.cache[victim].expire))
  {
    ReachableInv(s);
    var pc := s.Pc(p);
    assert PcOk(s.g, p, pc);
    StoresKeepsOthers(s.g.cache, pc.host, pc.ips, pc.at, s.g.cap, s.g.ttl, s'.g.cache);
    StoresDropsOnlyTheOldest(s.g.cache, pc.host, pc.ips, pc.at, s.g.cap, s.g.ttl, s'.g.cache);
  }
}
