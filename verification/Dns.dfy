/** The DNS cache and the single-flight map of resolveAll (proxy.go:329-437) as a state
    machine.  Any number of goroutines resolve any hosts; each section under `dnsMu`, each
    reading of the clock and each operation on a flight's `done` channel is one step. */
module Dns {
  import opened Common

  type Host = string
  type Pid = nat
  type FlightId = nat
  type Time = int

  /** An address as the resolver gives it; v4 when net.ParseIP(text).To4() is not nil. */
  datatype IpAddr = IpAddr(text: string, v4: bool)

  datatype Entry = Entry(ips: seq<IpAddr>, expire: Time)

  /** A dnsCall, with the goroutine that registered it, what the resolver found and what it was made
      into. */
  datatype Flight = Flight(host: Host, leader: Pid, found: seq<IpAddr>, ips: seq<IpAddr>, done: bool)

  /** What a leader was told and did to the cache. */
  datatype Event = Published(host: Host, found: seq<IpAddr>, ips: seq<IpAddr>, at: Time, evicted: set<Host>)

  /** What resolveAll returned: the addresses, or the target as it was given. */
  datatype Answer = Addresses(ips: seq<IpAddr>) | AsGiven

  datatype Source = FromCache | FromFlight(f: FlightId) | Cancelled

  datatype Pc =
    | Idle
    | Start(host: Host)
    | ReadCache(host: Host, t: Time)
    | Register(host: Host, t: Time, seen: nat)  // seen: how much of the log the read knew
    | Wait(host: Host, f: FlightId)
    | LookUp(host: Host, f: FlightId)
    | Publish(host: Host, f: FlightId, found: seq<IpAddr>, ips: seq<IpAddr>, at: Time)
    | Signal(host: Host, f: FlightId, found: seq<IpAddr>, ips: seq<IpAddr>)
    | Done(host: Host, answer: Answer, source: Source)

  datatype Shared = Shared(
    cache: map<Host, Entry>,
    inflight: map<Host, FlightId>,
    flights: seq<Flight>,      // every dnsCall ever made, by identity
    cap: nat,
    ttl: Time,
    now: Time,
    log: seq<Event>
  )

  datatype State = State(g: Shared, procs: map<Pid, Pc>) {
    function Pc(p: Pid): Pc {
      if p in procs then procs[p] else Idle
    }
  }

  const MAX_DNS_CACHE_SIZE: nat := 10000

  function AnswerOf(ips: seq<IpAddr>): Answer {
    if ips == [] then AsGiven else Addresses(ips)
  }

  // ---- IPv4 first, proxy.go:390-392 ----

  function Only(ips: seq<IpAddr>, v4: bool): seq<IpAddr> {
    if ips == [] then []
    else if ips[0].v4 == v4 then [ips[0]] + Only(ips[1..], v4)
    else Only(ips[1..], v4)
  }

  /** The stable sort of the resolver's answer. */
  function Ipv4First(ips: seq<IpAddr>): seq<IpAddr> {
    Only(ips, true) + Only(ips, false)
  }

  ghost predicate V4First(ips: seq<IpAddr>) {
    forall i, j :: 0 <= i < j < |ips| && ips[j].v4 ==> ips[i].v4
  }

  lemma {:induction false} OnlyKeeps(ips: seq<IpAddr>, v4: bool)
    ensures forall ip :: ip in Only(ips, v4) ==> ip.v4 == v4
  {
    if ips != [] {
      OnlyKeeps(ips[1..], v4);
    }
  }

  /** The answer is put in order and loses nothing. */
  lemma {:induction false} Ipv4FirstSorts(ips: seq<IpAddr>)
    ensures V4First(Ipv4First(ips))
    ensures multiset(Ipv4First(ips)) == multiset(ips)
    ensures |Ipv4First(ips)| == |ips|
  {
    OnlyKeeps(ips, true);
    OnlyKeeps(ips, false);
    var four := Only(ips, true);
    forall i, j | 0 <= i < j < |Ipv4First(ips)| && Ipv4First(ips)[j].v4 ensures Ipv4First(ips)[i].v4 {
      assert forall k :: |four| <= k < |Ipv4First(ips)| ==> Ipv4First(ips)[k] in Only(ips, false);
      assert Ipv4First(ips)[i] in four;
    }
    OnlySplits(ips);
  }

  lemma {:induction false} OnlySplits(ips: seq<IpAddr>)
    ensures multiset(Only(ips, true)) + multiset(Only(ips, false)) == multiset(ips)
    ensures |Only(ips, true)| + |Only(ips, false)| == |ips|
  {
    if ips != [] {
      OnlySplits(ips[1..]);
      assert ips == [ips[0]] + ips[1..];
    }
  }

  /** There is one stable way to do it: an ordered list that keeps the IPv4 addresses in
      their order and the others in theirs is Ipv4First. */
  lemma {:induction false} StableSortIsUnique(ips: seq<IpAddr>, out: seq<IpAddr>)
    requires V4First(out) && Only(out, true) == Only(ips, true) && Only(out, false) == Only(ips, false)
    ensures out == Ipv4First(ips)
  {
    SortedSplits(out);
  }

  lemma {:induction false} SortedSplits(out: seq<IpAddr>)
    requires V4First(out)
    ensures out == Only(out, true) + Only(out, false)
  {
    if out != [] {
      assert V4First(out[1..]);
      SortedSplits(out[1..]);
      if !out[0].v4 {
        NoV4(out);
      }
      assert out == [out[0]] + out[1..];
    }
  }

  lemma {:induction false} NoV4(out: seq<IpAddr>)
    requires forall i :: 0 <= i < |out| ==> !out[i].v4
    ensures Only(out, true) == []
  {
    if out != [] {
      NoV4(out[1..]);
    }
  }

  /** ips is found in some order: at i stands what was found at from[i], each once. */
  ghost predicate PlacedFrom(found: seq<IpAddr>, ips: seq<IpAddr>, from: seq<nat>) {
    && |from| == |ips| == |found|
    && (forall i :: 0 <= i < |from| ==> from[i] < |found| && ips[i] == found[from[i]])
    && (forall i, j :: 0 <= i < j < |from| ==> from[i] != from[j])
  }

  /** Both kinds keep the order in which they were found. */
  ghost predicate KeepsOrder(ips: seq<IpAddr>, from: seq<nat>)
    requires |from| == |ips|
  {
    forall i, j :: 0 <= i < j < |ips| && ips[i].v4 == ips[j].v4 ==> from[i] < from[j]
  }

  /** Where in ips, whose first stands at `base`, the addresses of one kind stand. */
  function Places(ips: seq<IpAddr>, v4: bool, base: nat): seq<nat> {
    if ips == [] then []
    else (if ips[0].v4 == v4 then [base] else []) + Places(ips[1..], v4, base + 1)
  }

  /** `picked` are addresses of ips, whose first stands at `base`, in the order of ips. */
  ghost predicate PickedAt(ips: seq<IpAddr>, picked: seq<IpAddr>, p: seq<nat>, base: nat) {
    && |p| == |picked|
    && (forall i :: 0 <= i < |p| ==> base <= p[i] < base + |ips| && ips[p[i] - base] == picked[i])
    && (forall i, j :: 0 <= i < j < |p| ==> p[i] < p[j])
  }

  lemma PickMore(ips: seq<IpAddr>, picked: seq<IpAddr>, p: seq<nat>, base: nat)
    requires ips != [] && PickedAt(ips[1..], picked, p, base + 1)
    ensures PickedAt(ips, picked, p, base) && PickedAt(ips, [ips[0]] + picked, [base] + p, base)
  {
    forall i | 0 <= i < |p| ensures ips[p[i] - base] == picked[i] {
      assert ips[1..][p[i] - (base + 1)] == picked[i];
    }
  }

  lemma {:induction false} OnlyPlaced(ips: seq<IpAddr>, v4: bool, base: nat)
    ensures PickedAt(ips, Only(ips, v4), Places(ips, v4, base), base)
  {
    if ips != [] {
      OnlyPlaced(ips[1..], v4, base + 1);
      PickMore(ips, Only(ips[1..], v4), Places(ips[1..], v4, base + 1), base);
      assert [] + Places(ips[1..], v4, base + 1) == Places(ips[1..], v4, base + 1);
    }
  }

  /** Every address found is in the answer once, IPv4 first, and else in the order found. */
  lemma Ipv4FirstPlaces(found: seq<IpAddr>) returns (from: seq<nat>)
    ensures PlacedFrom(found, Ipv4First(found), from)
    ensures V4First(Ipv4First(found)) && KeepsOrder(Ipv4First(found), from)
  {
    var four, six := Places(found, true, 0), Places(found, false, 0);
    OnlyPlaced(found, true, 0);
    OnlyPlaced(found, false, 0);
    OnlyKeeps(found, true);
    OnlyKeeps(found, false);
    Ipv4FirstSorts(found);
    from := four + six;
    BothPlaced(found, Only(found, true), four, Only(found, false), six);
  }

  lemma BothPlaced(found: seq<IpAddr>, a: seq<IpAddr>, p: seq<nat>, b: seq<IpAddr>, q: seq<nat>)
    requires PickedAt(found, a, p, 0) && PickedAt(found, b, q, 0) && |a + b| == |found|
    requires (forall ip :: ip in a ==> ip.v4) && (forall ip :: ip in b ==> !ip.v4)
    ensures PlacedFrom(found, a + b, p + q) && KeepsOrder(a + b, p + q)
  {
    assert forall i :: 0 <= i < |p| ==> found[p[i]] == a[i] && a[i] in a;
    assert forall i :: 0 <= i < |q| ==> found[q[i]] == b[i] && b[i] in b;
  }

  // ---- storing a result, proxy.go:400-427 ----

  /** What is left when everything past its expiry at time `at` has been dropped. */
  function Unexpired(cache: map<Host, Entry>, at: Time): map<Host, Entry> {
    map h | h in cache && at <= cache[h].expire :: cache[h]
  }

  predicate Oldest(cache: map<Host, Entry>, victim: Host) {
    victim in cache && forall h :: h in cache ==> cache[victim].expire <= cache[h].expire
  }

  /** room is cache with space made for host: nothing goes while there is space, then what
      has expired, then one entry that expires first. */
  ghost predicate MakesRoom(cache: map<Host, Entry>, host: Host, at: Time, cap: nat, room: map<Host, Entry>) {
    if host in cache || |cache| < cap then
      room == cache
    else if |Unexpired(cache, at)| < cap then
      room == Unexpired(cache, at)
    else
      exists victim :: Oldest(Unexpired(cache, at), victim) && room == Unexpired(cache, at) - {victim}
  }

  ghost predicate Stores(cache: map<Host, Entry>, host: Host, ips: seq<IpAddr>, at: Time, cap: nat, ttl: Time,
                         cache': map<Host, Entry>)
  {
    if ips == [] then
      cache' == cache
    else
      exists room :: MakesRoom(cache, host, at, cap, room) && cache' == room[host := Entry(ips, at + ttl)]
  }

  // ---- the steps of one goroutine p ----

  ghost predicate LookStep(g: Shared, pc: Pc, g': Shared, pc': Pc) {
    && g' == g
    && if pc.Idle? || pc.Done? then
         pc'.Start?
       else if pc.Start? then
         pc' == ReadCache(pc.host, g.now)
       else if pc.ReadCache? then
         pc' == if pc.host in g.cache && pc.t < g.cache[pc.host].expire
                then Done(pc.host, Addresses(g.cache[pc.host].ips), FromCache)
                else if pc.host in g.inflight then Wait(pc.host, g.inflight[pc.host])
                else Register(pc.host, pc.t, |g.log|)
       else if pc.Wait? then
         || pc' == Done(pc.host, AsGiven, Cancelled)
         || (pc.f < |g.flights| && g.flights[pc.f].done
             && pc' == Done(pc.host, AnswerOf(g.flights[pc.f].ips), FromFlight(pc.f)))
       else
         false
  }

  ghost predicate LeadStep(g: Shared, p: Pid, pc: Pc, g': Shared, pc': Pc) {
    if pc.Register? then
      if pc.host in g.inflight then
        g' == g && pc' == Wait(pc.host, g.inflight[pc.host])
      else
        && g' == g.(flights := g.flights + [Flight(pc.host, p, [], [], false)],
                    inflight := g.inflight[pc.host := |g.flights|])
        && pc' == LookUp(pc.host, |g.flights|)
    else if pc.LookUp? then
      // a failed lookup gives no addresses, and an empty host fails
      && g' == g
      && pc'.Publish? && pc' == Publish(pc.host, pc.f, pc'.found, Ipv4First(pc'.found), g.now)
      && (pc.host == "" ==> pc'.found == [])
    else if pc.Publish? then
      && pc.f < |g.flights|
      && Stores(g.cache, pc.host, pc.ips, pc.at, g.cap, g.ttl, g'.cache)
      && g' == g.(cache := g'.cache,
                  flights := g.flights[pc.f := g.flights[pc.f].(found := pc.found, ips := pc.ips)],
                  inflight := g.inflight - {pc.host},
                  log := g.log + [Published(pc.host, pc.found, pc.ips, pc.at, g.cache.Keys - g'.cache.Keys)])
      && pc' == Signal(pc.host, pc.f, pc.found, pc.ips)
    else if pc.Signal? then
      && pc.f < |g.flights|
      && g' == g.(flights := g.flights[pc.f := g.flights[pc.f].(done := true)])
      && pc' == Done(pc.host, AnswerOf(pc.ips), FromFlight(pc.f))
    else
      false
  }

  ghost predicate LocalStep(g: Shared, p: Pid, pc: Pc, g': Shared, pc': Pc) {
    LookStep(g, pc, g', pc') || LeadStep(g, p, pc, g', pc')
  }

  ghost predicate Step(s: State, p: Pid, s': State) {
    && s'.procs == s.procs[p := s'.Pc(p)]
    && LocalStep(s.g, p, s.Pc(p), s'.g, s'.Pc(p))
  }

  ghost predicate Tick(s: State, s': State) {
    s.g.now <= s'.g.now && s' == s.(g := s.g.(now := s'.g.now))
  }

  ghost predicate Next(s: State, s': State) {
    Tick(s, s') || exists p :: Step(s, p, s')
  }

  ghost predicate Init(s: State) {
    && s.g == Shared(map[], map[], [], s.g.cap, s.g.ttl, s.g.now, [])
    && s.g.cap >= 1 && s.g.ttl > 0
    && s.procs == map[]
  }

  ghost predicate NextAt(run: seq<State>, i: int)
    requires 0 <= i < |run| - 1
  {
    Next(run[i], run[i + 1])
  }

  ghost predicate IsRun(run: seq<State>) {
    && run != []
    && Init(run[0])
    && forall i :: 0 <= i < |run| - 1 ==> NextAt(run, i)
  }
}
