/** When a host is looked up again within the lifetime of an earlier answer.  The second look,
    under the write lock, is at the flight map only, and a full cache evicts. */
module DnsRepeats {
  import opened Common
  import opened Dns
  import opened DnsInvariants
  import opened DnsTheorems

  ghost predicate EvictedBetween(log: seq<Event>, i: int, n: int, h: Host) {
    exists j :: i < j < n && 0 <= j < |log| && h in log[j].evicted
  }

  /** What a goroutine that has read the clock at t and then the cache, when the log had `seen`
      events, without a hit or a flight for h, knows of the log. */
  ghost predicate Missed(g: Shared, h: Host, t: Time, seen: nat) {
    && (forall i :: seen <= i < |g.log| && g.log[i].host == h ==> t <= g.log[i].at)
    && (forall i :: 0 <= i < seen && i < |g.log| && g.log[i].host == h && g.log[i].ips != []
                      && t < g.log[i].at + g.ttl ==>
          EvictedBetween(g.log, i, seen, h))
  }

  /** Whoever is about to publish for h began after the read. */
  ghost predicate Later(pc: Pc, h: Host, t: Time) {
    pc.Publish? && pc.host == h ==> t <= pc.at
  }

  ghost predicate RegisterKnows(s: State) {
    && (forall p :: s.Pc(p).Register? ==> Missed(s.g, s.Pc(p).host, s.Pc(p).t, s.Pc(p).seen))
    && (forall p, q :: s.Pc(p).Register? ==> Later(s.Pc(q), s.Pc(p).host, s.Pc(p).t))
  }

  // ---- one step ----

  /** A miss without a flight: whatever is still fresh was evicted since, and no leader is at
      work. */
  lemma MissMeans(s: State, h: Host, t: Time)
    requires Inv(s) && h !in s.g.inflight
    requires h in s.g.cache ==> s.g.cache[h].expire <= t
    ensures Missed(s.g, h, t, |s.g.log|)
    ensures forall q :: Later(s.Pc(q), h, t)
  {
    var g := s.g;
    LatestMeans(g.log, h, g.ttl);
    if h in g.cache {
      var k :| 0 <= k < |g.log| && StoredAt(g.log, k, h, g.cache[h].ips)
            && g.cache[h].expire == g.log[k].at + g.ttl && NeitherSince(g.log, k, h);
      forall i | 0 <= i < |g.log| && g.log[i].host == h && g.log[i].ips != [] ensures g.log[i].at + g.ttl <= t {
        assert i <= k;
      }
    }
    forall q ensures Later(s.Pc(q), h, t) {
      assert PcOk(s.g, q, s.Pc(q));
    }
  }

  /** What a step adds to the log of h, and the time of a lookup that ends. */
  ghost predicate Adds(g: Shared, pc: Pc, g': Shared, pc': Pc) {
    && g'.ttl == g.ttl && g'.now == g.now
    && (pc'.Publish? ==> pc.LookUp? && pc'.host == pc.host && pc'.at == g.now)
    && (g'.log == g.log || (pc.Publish? && |g'.log| == |g.log| + 1 && g.log <= g'.log
                            && g'.log[|g.log|].host == pc.host && g'.log[|g.log|].at == pc.at))
    && (pc'.Register? ==>
          && pc.ReadCache? && pc'.host == pc.host && pc'.t == pc.t && pc'.seen == |g.log| && g' == g
          && pc.host !in g.inflight && (pc.host in g.cache ==> g.cache[pc.host].expire <= pc.t))
  }

  lemma StepAdds(g: Shared, p: Pid, pc: Pc, g': Shared, pc': Pc)
    requires LocalStep(g, p, pc, g', pc')
    ensures Adds(g, pc, g', pc')
  {
    if LookStep(g, pc, g', pc') { LookAdds(g, pc, g', pc'); } else { LeadAdds(g, p, pc, g', pc'); }
  }

  lemma LookAdds(g: Shared, pc: Pc, g': Shared, pc': Pc)
    requires LookStep(g, pc, g', pc')
    ensures Adds(g, pc, g', pc')
  {
  }

  lemma LeadAdds(g: Shared, p: Pid, pc: Pc, g': Shared, pc': Pc)
    requires LeadStep(g, p, pc, g', pc')
    ensures Adds(g, pc, g', pc')
  {
  }

  /** A longer log leaves a miss what it was. */
  lemma MissedStays(g: Shared, pc: Pc, g': Shared, pc': Pc, h: Host, t: Time, seen: nat)
    requires Adds(g, pc, g', pc') && Missed(g, h, t, seen) && Later(pc, h, t) && seen <= |g.log|
    ensures Missed(g', h, t, seen)
  {
    if g'.log != g.log {
      assert forall i :: 0 <= i < |g.log| ==> g'.log[i] == g.log[i];
      forall i | 0 <= i < seen && i < |g'.log| && g'.log[i].host == h && g'.log[i].ips != []
                   && t < g'.log[i].at + g'.ttl
        ensures EvictedBetween(g'.log, i, seen, h)
      {
        assert EvictedBetween(g.log, i, seen, h);
        var j :| i < j < seen && 0 <= j < |g.log| && h in g.log[j].evicted;
        assert h in g'.log[j].evicted;
      }
    }
  }

  lemma StepKeepsKnowing(s: State, p: Pid, s': State)
    requires Inv(s) && RegisterKnows(s) && Step(s, p, s')
    ensures RegisterKnows(s')
  {
    StepAdds(s.g, p, s.Pc(p), s'.g, s'.Pc(p));
    assert forall q :: q != p ==> s'.Pc(q) == s.Pc(q);
    forall r | s'.Pc(r).Register?
      ensures Missed(s'.g, s'.Pc(r).host, s'.Pc(r).t, s'.Pc(r).seen)
      ensures forall q :: Later(s'.Pc(q), s'.Pc(r).host, s'.Pc(r).t)
    {
      var pc := s'.Pc(r);
      if r == p {
        MissMeans(s, pc.host, pc.t);
        forall q ensures Later(s'.Pc(q), pc.host, pc.t) {
          assert Later(s.Pc(q), pc.host, pc.t);
        }
      } else {
        assert PcOk(s.g, r, pc) && Later(s.Pc(p), pc.host, pc.t);
        MissedStays(s.g, s.Pc(p), s'.g, s'.Pc(p), pc.host, pc.t, pc.seen);
        forall q ensures Later(s'.Pc(q), pc.host, pc.t) {
          assert Later(s.Pc(q), pc.host, pc.t);
        }
      }
    }
  }

  lemma {:induction false} RunsKeepKnowing(run: seq<State>, i: nat)
    requires IsRun(run) && i < |run|
    ensures RegisterKnows(run[i])
  {
    if i > 0 {
      RunsKeepKnowing(run, i - 1);
      DnsTheorems.RunsKeepInv(run, i - 1);
      assert NextAt(run, i - 1);
      if Tick(run[i - 1], run[i]) {
        assert forall p :: run[i].Pc(p) == run[i - 1].Pc(p);
      } else {
        var p :| Step(run[i - 1], p, run[i]);
        StepKeepsKnowing(run[i - 1], p, run[i]);
      }
    }
  }

  lemma ReachableKnows(s: State)
    requires Reachable(s)
    ensures RegisterKnows(s)
  {
    var run :| IsRun(run) && run[|run| - 1] == s;
    RunsKeepKnowing(run, |run| - 1);
  }

  // ---- the theorems ----

  /** p begins a lookup of the host it is at. */
  ghost predicate LookupBegins(s: State, p: Pid, s': State) {
    Step(s, p, s') && s.Pc(p).Register? && s'.Pc(p).LookUp?
  }

  /** A lookup begins within the lifetime of publication i of its host only if the goroutine had
      read the cache before that publication, or the host was evicted in between; and if it had
      read the cache before, it always does. */
  lemma RepeatsReadEarlyOrEvicted(s: State, p: Pid, s': State, i: nat)
    requires Reachable(s) && LookupBegins(s, p, s') && i < |s.g.log|
    requires s.g.log[i].host == s.Pc(p).host && s.g.log[i].ips != []
    ensures var pc := s.Pc(p);
            && (pc.seen <= i ==> pc.t < s.g.log[i].at + s.g.ttl)
            && (i < pc.seen && pc.t < s.g.log[i].at + s.g.ttl ==> EvictedBetween(s.g.log, i, pc.seen, pc.host))
  {
    ReachableInv(s);
    ReachableKnows(s);
    assert Missed(s.g, s.Pc(p).host, s.Pc(p).t, s.Pc(p).seen);
  }

  /** With an entry cached, it is one the goroutine should have used exactly when the host was
      published after the goroutine read the cache. */
  lemma SecondLookupReadTooEarly(s: State, p: Pid, s': State)
    requires Reachable(s) && LookupBegins(s, p, s') && s.Pc(p).host in s.g.cache
    ensures s.Pc(p).t < s.g.cache[s.Pc(p).host].expire <==> PublishedSince(s.g.log, s.Pc(p).seen, s.Pc(p).host)
  {
    ReachableInv(s);
    ReachableKnows(s);
    var g, pc := s.g, s.Pc(p);
    assert PcOk(g, p, pc) && Missed(g, pc.host, pc.t, pc.seen);
    if PublishedSince(g.log, pc.seen, pc.host) {
      var i :| pc.seen <= i < |g.log| && g.log[i].host == pc.host && g.log[i].ips != [];
      CacheIsTheLatestLookup(s, pc.host);
      var k :| 0 <= k < |g.log| && StoredAt(g.log, k, pc.host, g.cache[pc.host].ips)
            && g.cache[pc.host].expire == g.log[k].at + g.ttl && NeitherSince(g.log, k, pc.host);
      assert i <= k;
    }
  }

  /** Publication i of h is fresh at t and neither replaced nor evicted. */
  ghost predicate FreshAt(g: Shared, i: int, h: Host, t: Time)
    requires 0 <= i < |g.log|
  {
    g.log[i].host == h && g.log[i].ips != [] && NeitherSince(g.log, i, h) && t < g.log[i].at + g.ttl
  }

  /** A look at the cache hits exactly when some publication of the host is still fresh and
      nothing was published or evicted for it since. */
  lemma LookHits(s: State, p: Pid, s': State)
    requires Reachable(s) && Step(s, p, s') && s.Pc(p).ReadCache?
    ensures var pc := s.Pc(p);
            s'.Pc(p).Done? <==> (exists i :: 0 <= i < |s.g.log| && FreshAt(s.g, i, pc.host, pc.t))
  {
    var g, pc := s.g, s.Pc(p);
    CacheIsTheLatestLookup(s, pc.host);
    if pc.host in g.cache {
      var k :| 0 <= k < |g.log| && StoredAt(g.log, k, pc.host, g.cache[pc.host].ips)
            && g.cache[pc.host].expire == g.log[k].at + g.ttl && NeitherSince(g.log, k, pc.host);
      forall i | 0 <= i < |g.log| && FreshAt(g, i, pc.host, pc.t) ensures i == k {
      }
      assert pc.t < g.cache[pc.host].expire ==> FreshAt(g, k, pc.host, pc.t);
    }
  }

  // ---- both happen ----

  lemma Extend(s: State, p: Pid, g: Shared, pc: Pc) returns (s': State)
    requires Reachable(s) && LocalStep(s.g, p, s.Pc(p), g, pc)
    ensures Reachable(s') && Step(s, p, s') && s' == State(g, s.procs[p := pc])
  {
    s' := State(g, s.procs[p := pc]);
    assert Step(s, p, s');
    var run :| IsRun(run) && run[|run| - 1] == s;
    var longer := run + [s'];
    forall i | 0 <= i < |longer| - 1 ensures NextAt(longer, i) {
      if i < |run| - 1 {
        assert NextAt(run, i);
      }
    }
    assert IsRun(longer) && longer[|longer| - 1] == s';
  }

  const ONE := IpAddr("192.0.2.1", true)
  const FRESH := Shared(map[], map[], [], 1, 300, 0, [])

  /** Goroutine 1 has read the empty cache. */
  lemma EmptyRead() returns (s: State)
    ensures Reachable(s) && s.g == FRESH
    ensures s.Pc(1) == Register("a", 0, 0) && s.Pc(0) == s.Pc(2) == s.Pc(3) == Idle
  {
    s := State(FRESH, map[]);
    assert IsRun([s]);
    assert Reachable(s) by { assert [s][|[s]| - 1] == s; }
    s := Extend(s, 1, FRESH, Start("a"));
    s := Extend(s, 1, FRESH, ReadCache("a", 0));
    s := Extend(s, 1, FRESH, Register("a", 0, 0));
  }

  /** Goroutines 0 and 1 have both read the empty cache; 0 has looked "a" up and published. */
  lemma FirstOfTwo() returns (s: State)
    ensures Reachable(s)
    ensures s.g == Shared(map["a" := Entry([ONE], 300)], map[], [Flight("a", 0, [ONE], [ONE], false)], 1, 300, 0,
                          [Published("a", [ONE], [ONE], 0, {})])
    ensures s.Pc(1) == Register("a", 0, 0) && s.Pc(2) == s.Pc(3) == Idle
  {
    s := BothRead();
    var g := FRESH.(flights := [Flight("a", 0, [], [], false)], inflight := map["a" := 0]);
    s := Extend(s, 0, g, LookUp("a", 0));
    OneInOrder(ONE);
    s := Extend(s, 0, g, Publish("a", 0, [ONE], [ONE], 0));
    s := PublishFirst(s);
  }

  lemma BothRead() returns (s: State)
    ensures Reachable(s) && s.g == FRESH
    ensures s.Pc(0) == s.Pc(1) == Register("a", 0, 0) && s.Pc(2) == s.Pc(3) == Idle
  {
    s := EmptyRead();
    s := Extend(s, 0, FRESH, Start("a"));
    s := Extend(s, 0, FRESH, ReadCache("a", 0));
    s := Extend(s, 0, FRESH, Register("a", 0, 0));
  }

  lemma PublishFirst(s: State) returns (s': State)
    requires Reachable(s) && s.Pc(0) == Publish("a", 0, [ONE], [ONE], 0)
    requires s.g == FRESH.(flights := [Flight("a", 0, [], [], false)], inflight := map["a" := 0])
    ensures Reachable(s') && s'.procs == s.procs[0 := Signal("a", 0, [ONE], [ONE])]
    ensures s'.g == Shared(map["a" := Entry([ONE], 300)], map[], [Flight("a", 0, [ONE], [ONE], false)], 1, 300, 0,
                           [Published("a", [ONE], [ONE], 0, {})])
  {
    var cache := map["a" := Entry([ONE], 300)];
    assert MakesRoom(map[], "a", 0, 1, map[]);
    assert cache == (map[])["a" := Entry([ONE], 0 + 300)];
    assert Stores(map[], "a", [ONE], 0, 1, 300, cache);
    PublishIsAStep(s.g, 0, s.Pc(0), cache);
    assert s.g.inflight - {"a"} == map[];
    assert s.g.cache.Keys - cache.Keys == {};
    s' := Extend(s, 0, AfterPublish(s.g, s.Pc(0), cache), Signal("a", 0, [ONE], [ONE]));
  }

  lemma OneInOrder(ip: IpAddr)
    ensures Ipv4First([ip]) == [ip]
  {
    assert [ip][1..] == [];
    assert Only([ip][1..], true) == [] && Only([ip][1..], false) == [];
  }

  /** Two lookups of one host within one TTL: the second registers with an unexpired entry
      in the cache. */
  lemma TwoLookupsWithinOneTtl()
    ensures exists s :: Reachable(s) && s.Pc(1).LookUp? && "a" in s.g.cache && s.g.now < s.g.cache["a"].expire
  {
    var s := FirstOfTwo();
    var g := s.g.(flights := s.g.flights + [Flight("a", 1, [], [], false)], inflight := map["a" := 1]);
    s := Extend(s, 1, g, LookUp("a", 1));
  }

  const TWO := IpAddr("192.0.2.2", true)
  const OVER := [Published("a", [ONE], [ONE], 0, {}), Published("b", [TWO], [TWO], 0, {"a"})]

  lemma RegisterB() returns (s: State)
    ensures Reachable(s) && s.Pc(3) == Register("b", 0, 1) && s.Pc(2) == Idle
    ensures s.g == Shared(map["a" := Entry([ONE], 300)], map[], [Flight("a", 0, [ONE], [ONE], false)], 1, 300, 0,
                          [Published("a", [ONE], [ONE], 0, {})])
  {
    s := FirstOfTwo();
    s := Extend(s, 3, s.g, Start("b"));
    s := Extend(s, 3, s.g, ReadCache("b", 0));
    s := Extend(s, 3, s.g, Register("b", 0, 1));
  }

  /** Goroutine 0 has resolved "a" and goroutine 3 is about to publish "b" in a cache for one. */
  lemma FullOfA() returns (s: State)
    ensures Reachable(s) && s.Pc(3) == Publish("b", 1, [TWO], [TWO], 0) && s.Pc(2) == Idle
    ensures s.g == Shared(map["a" := Entry([ONE], 300)], map["b" := 1],
                          [Flight("a", 0, [ONE], [ONE], false), Flight("b", 3, [], [], false)], 1, 300, 0,
                          [Published("a", [ONE], [ONE], 0, {})])
  {
    s := RegisterB();
    OneInOrder(TWO);
    var g := s.g.(flights := s.g.flights + [Flight("b", 3, [], [], false)], inflight := map["b" := 1]);
    s := Extend(s, 3, g, LookUp("b", 1));
    s := Extend(s, 3, g, Publish("b", 1, [TWO], [TWO], 0));
  }

  lemma NoRoomForBoth()
    ensures Stores(map["a" := Entry([ONE], 300)], "b", [TWO], 0, 1, 300, map["b" := Entry([TWO], 300)])
  {
    var cache := map["a" := Entry([ONE], 300)];
    assert Unexpired(cache, 0) == cache;
    assert Oldest(cache, "a") && cache - {"a"} == map[];
    assert MakesRoom(cache, "b", 0, 1, map[]);
  }

  /** ... and has, so that "a" went. */
  lemma EvictedA() returns (s: State)
    ensures Reachable(s) && s.Pc(2) == Idle
    ensures s.g.cache == map["b" := Entry([TWO], 300)] && s.g.inflight == map[] && s.g.log == OVER
    ensures s.g.ttl == 300 && s.g.now == 0
  {
    s := FullOfA();
    var g, cache := s.g, map["b" := Entry([TWO], 300)];
    NoRoomForBoth();
    PublishIsAStep(g, 3, s.Pc(3), cache);
    assert g.inflight - {"b"} == map[] && g.cache.Keys - cache.Keys == {"a"};
    assert OVER == g.log + [Published("b", [TWO], [TWO], 0, {"a"})];
    s := Extend(s, 3, AfterPublish(g, s.Pc(3), cache), Signal("b", 1, [TWO], [TWO]));
  }

  /** A goroutine that reads the cache after the eviction looks "a" up again, within the
      lifetime of its first answer. */
  lemma LookedUpAgainAfterEviction()
    ensures exists s, s' :: && Reachable(s) && LookupBegins(s, 2, s') && s.Pc(2) == Register("a", 0, 2)
                            && s.g.log == OVER && s.g.ttl == 300
  {
    var s := EvictedA();
    var g := s.g;
    s := Extend(s, 2, g, Start("a"));
    s := Extend(s, 2, g, ReadCache("a", 0));
    s := Extend(s, 2, g, Register("a", 0, 2));
    var g' := g.(flights := g.flights + [Flight("a", 2, [], [], false)], inflight := g.inflight["a" := |g.flights|]);
    var s' := Extend(s, 2, g', LookUp("a", |g.flights|));
    assert LookupBegins(s, 2, s');
  }
}
