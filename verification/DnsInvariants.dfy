/** One leader per host, and what its waiters may rely on.  The argument is rely-guarantee:
    a step of p leaves alone everything that belongs to the flights of other leaders. */
module DnsInvariants {
  import opened Common
  import opened Dns

  predicate Leads(pc: Pc, f: FlightId) {
    (pc.LookUp? || pc.Publish? || pc.Signal?) && pc.f == f
  }

  /** The last thing the log says about a host. */
  function Latest(log: seq<Event>, host: Host, ttl: Time): Option<Entry> {
    if log == [] then
      None
    else
      var e := log[|log| - 1];
      if e.host == host && e.ips != [] then Some(Entry(e.ips, e.at + ttl))
      else if host in e.evicted then None
      else Latest(log[..|log| - 1], host, ttl)
  }

  /** Registered flights are open; the cache is within bounds and is what the log says. */
  ghost predicate SharedOk(g: Shared) {
    && g.cap >= 1 && g.ttl > 0
    && (forall h :: h in g.inflight ==>
          && g.inflight[h] < |g.flights|
          && g.flights[g.inflight[h]].host == h
          && !g.flights[g.inflight[h]].done)
    && |g.cache| <= g.cap
    && "" !in g.cache
    && (forall h :: h in g.cache ==>
          g.cache[h].ips != [] && V4First(g.cache[h].ips) && g.cache[h].expire <= g.now + g.ttl)
    && (forall f :: 0 <= f < |g.flights| ==> V4First(g.flights[f].ips))
    && (forall h :: Latest(g.log, h, g.ttl) == if h in g.cache then Some(g.cache[h]) else None)
    && (forall i :: 0 <= i < |g.log| ==> g.log[i].at <= g.now)
    && (forall i, j :: 0 <= i < j < |g.log| && g.log[i].host == g.log[j].host ==> g.log[i].at <= g.log[j].at)
  }

  /** host was published with addresses at or after position `from` of the log. */
  ghost predicate PublishedSince(log: seq<Event>, from: nat, host: Host) {
    exists i :: from <= i < |log| && log[i].host == host && log[i].ips != []
  }

  /** What goroutine p knows where it is. */
  ghost predicate PcOk(g: Shared, p: Pid, pc: Pc) {
    && (pc.ReadCache? ==> pc.t <= g.now)
    && (pc.Register? ==>
          && pc.t <= g.now && pc.seen <= |g.log|
          && (pc.host in g.cache && pc.t < g.cache[pc.host].expire ==> PublishedSince(g.log, pc.seen, pc.host)))
    && (pc.Wait? ==> pc.f < |g.flights| && g.flights[pc.f].host == pc.host)
    && (pc.LookUp? || pc.Publish? || pc.Signal? ==>
          && pc.f < |g.flights|
          && g.flights[pc.f].host == pc.host && g.flights[pc.f].leader == p && !g.flights[pc.f].done)
    && (pc.LookUp? || pc.Publish? ==> pc.host in g.inflight && g.inflight[pc.host] == pc.f)
    && (pc.Publish? ==>
          && pc.at <= g.now && V4First(pc.ips) && (pc.host == "" ==> pc.ips == [])
          && (pc.host in g.cache ==> g.cache[pc.host].expire <= pc.at + g.ttl)
          && (forall i :: 0 <= i < |g.log| && g.log[i].host == pc.host ==> g.log[i].at <= pc.at))
    && (pc.Signal? ==>
          && g.flights[pc.f].found == pc.found && g.flights[pc.f].ips == pc.ips
          && (pc.host in g.inflight ==> g.inflight[pc.host] != pc.f))
    && (pc.Done? && pc.answer.Addresses? ==> pc.answer.ips != [] && V4First(pc.answer.ips))
    && (pc.Done? && pc.source.FromFlight? ==>
          && pc.source.f < |g.flights|
          && g.flights[pc.source.f].host == pc.host && g.flights[pc.source.f].done
          && pc.answer == AnswerOf(g.flights[pc.source.f].ips))
  }

  /** Every flight that is not done has its leader still at work on it. */
  ghost predicate Led(s: State) {
    forall f :: 0 <= f < |s.g.flights| && !s.g.flights[f].done ==> Leads(s.Pc(s.g.flights[f].leader), f)
  }

  ghost predicate Inv(s: State) {
    && SharedOk(s.g)
    && (forall p :: PcOk(s.g, p, s.Pc(p)))
    && Led(s)
  }

  predicate Mine(g: Shared, p: Pid, h: Host)
    requires forall h :: h in g.inflight ==> g.inflight[h] < |g.flights|
  {
    h in g.inflight && g.flights[g.inflight[h]].leader == p
  }

  /** p leaves alone the flights it does not lead, and all that are done. */
  ghost predicate KeepsFlights(g: Shared, p: Pid, g': Shared)
    requires forall h :: h in g.inflight ==> g.inflight[h] < |g.flights|
  {
    && |g.flights| <= |g'.flights|
    && (forall f :: 0 <= f < |g.flights| ==>
          && g'.flights[f].host == g.flights[f].host && g'.flights[f].leader == g.flights[f].leader
          && (g.flights[f].leader != p || g.flights[f].done ==> g'.flights[f] == g.flights[f]))
    && (forall h :: h in g.inflight && !Mine(g, p, h) ==> h in g'.inflight && g'.inflight[h] == g.inflight[h])
    && (forall h :: h in g'.inflight ==>
          (h in g.inflight && g'.inflight[h] == g.inflight[h]) || g'.inflight[h] >= |g.flights|)
  }

  /** p may drop but not write the entries of hosts that others lead, and what it writes it logs. */
  ghost predicate KeepsCache(g: Shared, p: Pid, g': Shared)
    requires forall h :: h in g.inflight ==> g.inflight[h] < |g.flights|
  {
    && (forall h :: h in g.inflight && !Mine(g, p, h) && h in g'.cache ==> h in g.cache && g'.cache[h] == g.cache[h])
    && (forall h :: h in g'.cache ==> (h in g.cache && g'.cache[h] == g.cache[h]) || PublishedSince(g'.log, |g.log|, h))
    && g.log <= g'.log
    && (forall i :: |g.log| <= i < |g'.log| ==> Mine(g, p, g'.log[i].host))
  }

  ghost predicate Guarantee(g: Shared, p: Pid, g': Shared) {
    && (forall h :: h in g.inflight ==> g.inflight[h] < |g.flights|)
    && KeepsFlights(g, p, g') && KeepsCache(g, p, g')
    && g'.now == g.now && g'.ttl == g.ttl && g'.cap == g.cap
  }

  /** Knowledge survives the steps of others. */
  lemma OthersKeepPcOk(g: Shared, p: Pid, g': Shared, q: Pid, pc: Pc)
    requires Guarantee(g, p, g') && q != p && PcOk(g, q, pc)
    ensures PcOk(g', q, pc)
  {
    if pc.Register? && pc.host in g'.cache && pc.t < g'.cache[pc.host].expire {
      if pc.host in g.cache && g'.cache[pc.host] == g.cache[pc.host] {
        var i :| pc.seen <= i < |g.log| && g.log[i].host == pc.host && g.log[i].ips != [];
        assert g'.log[i] == g.log[i];
      } else {
        var i :| |g.log| <= i < |g'.log| && g'.log[i].host == pc.host && g'.log[i].ips != [];
        assert pc.seen <= i;
      }
    }
    if pc.Publish? {
      assert !Mine(g, p, pc.host);
      forall i | 0 <= i < |g'.log| && g'.log[i].host == pc.host ensures g'.log[i].at <= pc.at {
        if i < |g.log| {
          assert g'.log[i] == g.log[i];
        }
      }
    }
  }

  // ---- storing ----

  /** Storing keeps the cache within its bound. */
  lemma StoresWithinCap(cache: map<Host, Entry>, host: Host, ips: seq<IpAddr>, at: Time, cap: nat, ttl: Time,
                        cache': map<Host, Entry>)
    requires cap >= 1 && |cache| <= cap && Stores(cache, host, ips, at, cap, ttl, cache')
    ensures |cache'| <= cap
  {
    if ips != [] {
      var room :| MakesRoom(cache, host, at, cap, room) && cache' == room[host := Entry(ips, at + ttl)];
      RoomIsMade(cache, host, at, cap, room);
      assert cache'.Keys == room.Keys + {host};
    }
  }

  /** It stores what it was given, and leaves every other entry as it was or drops it. */
  lemma StoresKeepsOthers(cache: map<Host, Entry>, host: Host, ips: seq<IpAddr>, at: Time, cap: nat, ttl: Time,
                          cache': map<Host, Entry>)
    requires cap >= 1 && |cache| <= cap && Stores(cache, host, ips, at, cap, ttl, cache')
    ensures ips != [] ==> host in cache' && cache'[host] == Entry(ips, at + ttl)
    ensures forall h :: h in cache' && h != host ==> h in cache && cache'[h] == cache[h]
    ensures ips == [] ==> cache' == cache
  {
    if ips != [] {
      var room :| MakesRoom(cache, host, at, cap, room) && cache' == room[host := Entry(ips, at + ttl)];
      RoomIsMade(cache, host, at, cap, room);
    }
  }

  /** Nothing is dropped unless a new host meets a full cache; then only what has expired,
      and only if nothing has, one entry that expires first. */
  lemma StoresDropsOnlyTheOldest(cache: map<Host, Entry>, host: Host, ips: seq<IpAddr>, at: Time, cap: nat, ttl: Time,
                                 cache': map<Host, Entry>)
    requires cap >= 1 && |cache| <= cap && Stores(cache, host, ips, at, cap, ttl, cache')
    ensures cache.Keys <= cache'.Keys || (host !in cache && |cache| == cap)
    ensures || (forall h :: h in cache && h !in cache' ==> cache[h].expire < at)
            || exists victim ::
                 cache.Keys - cache'.Keys == {victim} && Oldest(cache, victim) && at <= cache[victim].expire
  {
    if ips != [] {
      var room :| MakesRoom(cache, host, at, cap, room) && cache' == room[host := Entry(ips, at + ttl)];
      if host !in cache && |cache| >= cap && |Unexpired(cache, at)| >= cap {
        FullOfLive(cache, at, cap);
        var victim :| Oldest(Unexpired(cache, at), victim) && room == Unexpired(cache, at) - {victim};
        assert cache.Keys - cache'.Keys == {victim};
        assert victim in Unexpired(cache, at);
      }
    }
  }

  lemma RoomIsMade(cache: map<Host, Entry>, host: Host, at: Time, cap: nat, room: map<Host, Entry>)
    requires cap >= 1 && |cache| <= cap && MakesRoom(cache, host, at, cap, room)
    ensures |room| <= cap && (host in room || |room| < cap)
    ensures forall h :: h in room ==> h in cache && room[h] == cache[h]
  {
    if host !in cache && |cache| >= cap && |Unexpired(cache, at)| >= cap {
      FullOfLive(cache, at, cap);
      var victim :| Oldest(cache, victim) && room == cache - {victim};
      assert room.Keys == cache.Keys - {victim};
    }
  }

  /** A full cache that stays full has nothing expired. */
  lemma FullOfLive(cache: map<Host, Entry>, at: Time, cap: nat)
    requires |cache| <= cap <= |Unexpired(cache, at)|
    ensures Unexpired(cache, at) == cache
  {
    var live := Unexpired(cache, at);
    assert live.Keys <= cache.Keys;
    if live.Keys != cache.Keys {
      var h :| h in cache && h !in live;
      SubsetSize(live.Keys, cache.Keys - {h});
    }
  }

  // ---- the steps of p ----

  lemma LookKeeps(g: Shared, p: Pid, pc: Pc, g': Shared, pc': Pc)
    requires SharedOk(g) && PcOk(g, p, pc) && LookStep(g, pc, g', pc')
    ensures SharedOk(g') && PcOk(g', p, pc') && Guarantee(g, p, g')
  {
  }

  lemma RegisterKeeps(g: Shared, p: Pid, pc: Pc, g': Shared, pc': Pc)
    requires SharedOk(g) && PcOk(g, p, pc) && pc.Register? && LeadStep(g, p, pc, g', pc')
    ensures SharedOk(g') && PcOk(g', p, pc') && Guarantee(g, p, g')
  {
    RegisterKeepsShared(g, p, pc, g', pc');
    RegisterKeepsFlights(g, p, pc, g', pc');
  }

  lemma RegisterKeepsShared(g: Shared, p: Pid, pc: Pc, g': Shared, pc': Pc)
    requires SharedOk(g) && PcOk(g, p, pc) && pc.Register? && LeadStep(g, p, pc, g', pc')
    ensures SharedOk(g')
  {
  }

  lemma RegisterKeepsFlights(g: Shared, p: Pid, pc: Pc, g': Shared, pc': Pc)
    requires SharedOk(g) && PcOk(g, p, pc) && pc.Register? && LeadStep(g, p, pc, g', pc')
    ensures KeepsFlights(g, p, g')
  {
  }

  lemma LookUpKeeps(g: Shared, p: Pid, pc: Pc, g': Shared, pc': Pc)
    requires SharedOk(g) && PcOk(g, p, pc) && pc.LookUp? && LeadStep(g, p, pc, g', pc')
    ensures SharedOk(g') && PcOk(g', p, pc') && Guarantee(g, p, g')
  {
    Ipv4FirstSorts(pc'.found);
  }

  lemma SignalKeeps(g: Shared, p: Pid, pc: Pc, g': Shared, pc': Pc)
    requires SharedOk(g) && PcOk(g, p, pc) && pc.Signal? && LeadStep(g, p, pc, g', pc')
    ensures SharedOk(g') && PcOk(g', p, pc') && Guarantee(g, p, g')
  {
  }

  lemma PublishLogs(g: Shared, p: Pid, pc: Pc, g': Shared, pc': Pc)
    requires SharedOk(g) && PcOk(g, p, pc) && pc.Publish? && LeadStep(g, p, pc, g', pc')
    ensures forall h :: Latest(g'.log, h, g'.ttl) == if h in g'.cache then Some(g'.cache[h]) else None
  {
    forall h ensures Latest(g'.log, h, g'.ttl) == if h in g'.cache then Some(g'.cache[h]) else None {
      LatestNext(g.log, EventOf(g, pc, g'), h, g.ttl);
      PublishKeepsEntry(g, p, pc, g', pc', h);
    }
  }

  /** What a publication notes. */
  function EventOf(g: Shared, pc: Pc, g': Shared): Event
    requires pc.Publish?
  {
    Published(pc.host, pc.found, pc.ips, pc.at, g.cache.Keys - g'.cache.Keys)
  }

  lemma PublishNotes(g: Shared, p: Pid, pc: Pc, g': Shared, pc': Pc)
    requires pc.Publish? && LeadStep(g, p, pc, g', pc')
    ensures g'.log == g.log + [EventOf(g, pc, g')] && g'.ttl == g.ttl && g'.cap == g.cap
  {
  }

  /** The entry of any one host after a publication. */
  lemma PublishKeepsEntry(g: Shared, p: Pid, pc: Pc, g': Shared, pc': Pc, h: Host)
    requires SharedOk(g) && PcOk(g, p, pc) && pc.Publish? && LeadStep(g, p, pc, g', pc')
    ensures h in g'.cache ==> if h == pc.host && pc.ips != [] then g'.cache[h] == Entry(pc.ips, pc.at + g.ttl)
                              else h in g.cache && g'.cache[h] == g.cache[h]
    ensures h == pc.host && pc.ips != [] ==> h in g'.cache
    ensures g'.log == g.log + [EventOf(g, pc, g')] && g'.ttl == g.ttl
  {
    PublishNotes(g, p, pc, g', pc');
    StoresKeepsOthers(g.cache, pc.host, pc.ips, pc.at, g.cap, g.ttl, g'.cache);
  }

  lemma LatestNext(log: seq<Event>, e: Event, host: Host, ttl: Time)
    ensures Latest(log + [e], host, ttl)
         == if e.host == host && e.ips != [] then Some(Entry(e.ips, e.at + ttl))
            else if host in e.evicted then None
            else Latest(log, host, ttl)
  {
    assert (log + [e])[..|log|] == log;
  }

  lemma PublishKeepsShared(g: Shared, p: Pid, pc: Pc, g': Shared, pc': Pc)
    requires SharedOk(g) && PcOk(g, p, pc) && pc.Publish? && LeadStep(g, p, pc, g', pc')
    ensures SharedOk(g')
  {
    PublishKeepsEntries(g, p, pc, g', pc');
    PublishLogs(g, p, pc, g', pc');
    PublishInOrder(g, p, pc, g', pc');
  }

  lemma PublishKeepsEntries(g: Shared, p: Pid, pc: Pc, g': Shared, pc': Pc)
    requires SharedOk(g) && PcOk(g, p, pc) && pc.Publish? && LeadStep(g, p, pc, g', pc')
    ensures |g'.cache| <= g'.cap && "" !in g'.cache
    ensures forall h :: h in g'.cache ==>
              g'.cache[h].ips != [] && V4First(g'.cache[h].ips) && g'.cache[h].expire <= g'.now + g'.ttl
  {
    StoresWithinCap(g.cache, pc.host, pc.ips, pc.at, g.cap, g.ttl, g'.cache);
    StoresKeepsOthers(g.cache, pc.host, pc.ips, pc.at, g.cap, g.ttl, g'.cache);
  }

  lemma PublishInOrder(g: Shared, p: Pid, pc: Pc, g': Shared, pc': Pc)
    requires SharedOk(g) && PcOk(g, p, pc) && pc.Publish? && LeadStep(g, p, pc, g', pc')
    ensures forall i :: 0 <= i < |g'.log| ==> g'.log[i].at <= g'.now
    ensures forall i, j :: 0 <= i < j < |g'.log| && g'.log[i].host == g'.log[j].host ==> g'.log[i].at <= g'.log[j].at
  {
  }

  lemma PublishKeepsPcOk(g: Shared, p: Pid, pc: Pc, g': Shared, pc': Pc)
    requires SharedOk(g) && PcOk(g, p, pc) && pc.Publish? && LeadStep(g, p, pc, g', pc')
    ensures PcOk(g', p, pc')
  {
  }

  lemma PublishKeepsFlights(g: Shared, p: Pid, pc: Pc, g': Shared, pc': Pc)
    requires SharedOk(g) && PcOk(g, p, pc) && pc.Publish? && LeadStep(g, p, pc, g', pc')
    ensures KeepsFlights(g, p, g')
  {
    assert Mine(g, p, pc.host);
  }

  lemma PublishKeepsCache(g: Shared, p: Pid, pc: Pc, g': Shared, pc': Pc)
    requires SharedOk(g) && PcOk(g, p, pc) && pc.Publish? && LeadStep(g, p, pc, g', pc')
    ensures KeepsCache(g, p, g')
  {
    PublishNotes(g, p, pc, g', pc');
    assert Mine(g, p, pc.host);
    assert g'.log[|g.log|] == EventOf(g, pc, g');
    forall h | h in g'.cache
      ensures (h in g.cache && g'.cache[h] == g.cache[h]) || (h == pc.host && PublishedSince(g'.log, |g.log|, h))
    {
      PublishKeepsEntry(g, p, pc, g', pc', h);
    }
  }

  lemma StepKeeps(g: Shared, p: Pid, pc: Pc, g': Shared, pc': Pc)
    requires SharedOk(g) && PcOk(g, p, pc) && LocalStep(g, p, pc, g', pc')
    ensures SharedOk(g') && PcOk(g', p, pc') && Guarantee(g, p, g')
  {
    if LookStep(g, pc, g', pc') { LookKeeps(g, p, pc, g', pc'); }
    else if pc.Register? { RegisterKeeps(g, p, pc, g', pc'); }
    else if pc.LookUp? { LookUpKeeps(g, p, pc, g', pc'); }
    else if pc.Publish? {
      PublishKeepsShared(g, p, pc, g', pc');
      PublishKeepsPcOk(g, p, pc, g', pc');
      PublishKeepsFlights(g, p, pc, g', pc');
      PublishKeepsCache(g, p, pc, g', pc');
    }
    else { SignalKeeps(g, p, pc, g', pc'); }
  }

  // ---- the whole table ----

  /** New flights are led by their maker, and a leader stops leading only when done. */
  lemma StepLeads(g: Shared, p: Pid, pc: Pc, g': Shared, pc': Pc)
    requires LocalStep(g, p, pc, g', pc')
    ensures |g.flights| <= |g'.flights|
    ensures forall f :: |g.flights| <= f < |g'.flights| ==> g'.flights[f].leader == p && Leads(pc', f)
    ensures forall f :: 0 <= f < |g.flights| && Leads(pc, f) ==> Leads(pc', f) || g'.flights[f].done
    ensures forall f :: 0 <= f < |g.flights| ==> g'.flights[f].leader == g.flights[f].leader
    ensures forall f :: 0 <= f < |g.flights| && g.flights[f].done ==> g'.flights[f].done
  {
  }

  lemma StepKeepsInv(s: State, p: Pid, s': State)
    requires Inv(s) && Step(s, p, s')
    ensures Inv(s')
  {
    StepKeeps(s.g, p, s.Pc(p), s'.g, s'.Pc(p));
    forall q ensures PcOk(s'.g, q, s'.Pc(q)) {
      if q != p {
        assert s'.Pc(q) == s.Pc(q);
        OthersKeepPcOk(s.g, p, s'.g, q, s.Pc(q));
      }
    }
    StepLeads(s.g, p, s.Pc(p), s'.g, s'.Pc(p));
    forall f | 0 <= f < |s'.g.flights| && !s'.g.flights[f].done ensures Leads(s'.Pc(s'.g.flights[f].leader), f) {
      if f < |s.g.flights| {
        assert Leads(s.Pc(s.g.flights[f].leader), f);
      }
    }
  }

  lemma TickKeepsInv(s: State, s': State)
    requires Inv(s) && Tick(s, s')
    ensures Inv(s')
  {
    forall q ensures PcOk(s'.g, q, s'.Pc(q)) {
      assert PcOk(s.g, q, s.Pc(q));
    }
    forall f | 0 <= f < |s'.g.flights| && !s'.g.flights[f].done ensures Leads(s'.Pc(s'.g.flights[f].leader), f) {
      assert Leads(s.Pc(s.g.flights[f].leader), f);
    }
  }

  lemma InitInv(s: State)
    requires Init(s)
    ensures Inv(s)
  {
  }

  lemma NextKeepsInv(s: State, s': State)
    requires Inv(s) && Next(s, s')
    ensures Inv(s')
  {
    if Tick(s, s') {
      TickKeepsInv(s, s');
    } else {
      var p :| Step(s, p, s');
      StepKeepsInv(s, p, s');
    }
  }
}
