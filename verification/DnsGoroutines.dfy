/** resolveAll as code (proxy.go:329-437).  Each section under `dnsMu`, each reading of the
    clock and each operation on a flight's `done` channel is one step of the execution in
    the ghost field `trace`; in between, other goroutines and time move on. */
module DnsGoroutines {
  import opened Common
  import opened Dns
  import opened DnsInvariants
  import opened DnsTheorems

  /** targetAddr after net.SplitHostPort and net.ParseIP. */
  datatype Target =
    | Unsplittable(text: string)
    | Literal(text: string)
    | Named(host: Host, port: string)

  /** One element of the result: the target as given, or an address joined with a port. */
  datatype Address = Given(target: Target) | At(ip: IpAddr, port: string)

  function HostPorts(ips: seq<IpAddr>, port: string): seq<Address> {
    seq(|ips|, i requires 0 <= i < |ips| => At(ips[i], port))
  }

  /** What the section under the read lock saw. */
  datatype Glance = Hit(ips: seq<IpAddr>) | Inflight(f: FlightId) | Miss

  class Resolver {
    var dnsCache: map<Host, Entry>
    var dnsFlight: map<Host, FlightId>
    var flights: seq<Flight>
    const cap: nat
    const ttl: Time
    var now: Time
    ghost var log: seq<Event>
    ghost var procs: map<Pid, Pc>
    ghost var trace: seq<State>

    ghost function Now(): State
      reads this
    {
      State(Shared(dnsCache, dnsFlight, flights, cap, ttl, now, log), procs)
    }

    ghost function Pc(p: Pid): Pc
      reads this
    {
      Now().Pc(p)
    }

    ghost predicate Valid()
      reads this
    {
      IsRun(trace) && trace[|trace| - 1] == Now()
    }

    /** DNSCacheTTLSeconds in whatever unit `now` counts; not positive means five minutes. */
    constructor (ttlSeconds: int, now: Time)
      ensures Valid() && trace == [Now()] && cap == MAX_DNS_CACHE_SIZE
      ensures ttl == if ttlSeconds <= 0 then 300 else ttlSeconds
      ensures dnsCache == map[] && forall p :: Pc(p) == Idle
    {
      cap, ttl := MAX_DNS_CACHE_SIZE, if ttlSeconds <= 0 then 300 else ttlSeconds;
      this.now := now;
      dnsCache, dnsFlight, flights, log, procs := map[], map[], [], [], map[];
      new;
      trace := [Now()];
    }

    ghost method Arrive(me: Pid, pc: Pc)
      requires IsRun(trace) && trace[|trace| - 1].procs == procs
      requires LocalStep(trace[|trace| - 1].g, me, Pc(me), Now().g, pc)
      modifies this`procs, this`trace
      ensures Valid() && trace == old(trace) + [Now()] && procs == old(procs)[me := pc]
    {
      var before := trace[|trace| - 1];
      procs := procs[me := pc];
      assert Step(before, me, Now());
      trace := trace + [Now()];
      forall i | 0 <= i < |trace| - 1 ensures NextAt(trace, i) {
        if i < |old(trace)| - 1 {
          assert NextAt(old(trace), i);
        }
      }
    }

    /** Any number of steps by everybody else. */
    method Interfere(ghost me: Pid)
      requires Valid()
      modifies this
      ensures Valid() && old(trace) <= trace && Pc(me) == old(Pc(me))
      ensures old(now) <= now && |old(flights)| <= |flights|
      ensures forall f :: 0 <= f < |old(flights)| ==> flights[f].leader == old(flights)[f].leader
    {
    }

    /** Blocked until the flight is done or the context has ended. */
    method BlockForFlight(ghost me: Pid, f: FlightId, deadline: Time)
      requires Valid() && f < |flights|
      modifies this
      ensures Valid() && old(trace) <= trace && Pc(me) == old(Pc(me))
      ensures f < |flights| && flights[f].leader == old(flights)[f].leader
      ensures flights[f].done || now >= deadline
    {
      Interfere(me);
      if !flights[f].done && now < deadline {
        TimePasses(deadline);
      }
    }

    method TimePasses(until: Time)
      requires Valid() && now <= until
      modifies this`now, this`trace
      ensures Valid() && trace == old(trace) + [Now()] && now == until
    {
      ghost var before := Now();
      now := until;
      assert Tick(before, Now());
      trace := trace + [Now()];
      forall i | 0 <= i < |trace| - 1 ensures NextAt(trace, i) {
        if i < |old(trace)| - 1 {
          assert NextAt(old(trace), i);
        }
      }
    }

    lemma NowKeepsInv(me: Pid)
      requires Valid()
      ensures Reachable(Now()) && SharedOk(Now().g) && PcOk(Now().g, me, Pc(me))
    {
      assert Reachable(Now());
      ReachableInv(Now());
    }

    lemma LeaderKnows(me: Pid)
      requires Valid() && Pc(me).Publish?
      ensures "" !in dnsCache && cap >= 1 && |dnsCache| <= cap && Pc(me).f < |flights|
    {
      NowKeepsInv(me);
    }

    /** What becomes of a lookup of `host` that began with the flights before: an entry of the cache;
        or a flight that is done, whose addresses are all that was found for it, which if p leads it is
        what the resolver says to p; or neither, and then p's context has ended. */
    ghost predicate Answered(p: Pid, host: Host, says: seq<IpAddr>, deadline: Time)
      reads this
    {
      && Pc(p).Done? && Pc(p).host == host
      && match Pc(p).source
         case FromCache => Pc(p).answer.Addresses? && Pc(p).answer.ips != []
         case FromFlight(f) =>
           && f < |flights| && flights[f].done && flights[f].host == host
           && Pc(p).answer == (if flights[f].ips == [] then AsGiven else Addresses(flights[f].ips))
           && Arranged(flights[f].found, flights[f].ips)
           && (flights[f].leader == p ==> flights[f].found == if host == "" then [] else says)
         case Cancelled => Pc(p).answer.AsGiven? && now >= deadline
    }

    /** A named target is resolved from position `at` of the execution on; `says` is what the resolver
        would say to this goroutine, nothing if it fails, and `deadline` when its context ends. */
    method ResolveAll(me: Pid, target: Target, says: seq<IpAddr>, deadline: Time)
      returns (addrs: seq<Address>, ghost at: nat)
      requires Valid() && (Pc(me).Idle? || Pc(me).Done?)
      modifies this
      ensures Valid() && old(trace) <= trace
      ensures !target.Named? ==> addrs == [Given(target)] && trace == old(trace)
      ensures target.Named? ==>
                && Answered(me, target.host, says, deadline)
                && if Pc(me).answer.AsGiven? then addrs == [Given(target)] else
                     && |addrs| == |Pc(me).answer.ips|
                     && forall i :: 0 <= i < |addrs| ==> addrs[i] == At(Pc(me).answer.ips[i], target.port)
      ensures target.Named? ==> |old(trace)| <= at < |trace| && trace[at].Pc(me) == Start(target.host)
      ensures addrs != []
    {
      if !target.Named? {
        return [Given(target)], 0;
      }
      var answer;
      answer, at := Resolve(me, target.host, says, deadline);
      NowKeepsInv(me);
      if answer.AsGiven? {
        addrs := [Given(target)];
      } else {
        addrs := JoinAll(answer.ips, target.port);
      }
    }

    method Resolve(me: Pid, host: Host, says: seq<IpAddr>, deadline: Time) returns (answer: Answer, ghost at: nat)
      requires Valid() && (Pc(me).Idle? || Pc(me).Done?)
      modifies this
      ensures Valid() && old(trace) <= trace
      ensures Answered(me, host, says, deadline) && Pc(me).answer == answer
      ensures |old(trace)| <= at < |trace| && trace[at].Pc(me) == Start(host)
    {
      var t;
      t, at := ReadClock(me, host);
      answer := ResolveAt(me, host, t, says, deadline);
    }

    /** From the look at the cache on, with the clock read at t. */
    method ResolveAt(me: Pid, host: Host, t: Time, says: seq<IpAddr>, deadline: Time) returns (answer: Answer)
      requires Valid() && Pc(me) == ReadCache(host, t)
      modifies this
      ensures Valid() && old(trace) <= trace
      ensures Answered(me, host, says, deadline) && Pc(me).answer == answer
    {
      Interfere(me);
      var look := LookAndGoOn(me, host, t);
      match look {
        case Hit(ips) => answer := Addresses(ips);
        case Inflight(f) => answer := WaitFor(me, host, f, says, deadline);
        case Miss => answer := RegisterOrWait(me, host, says, deadline);
      }
    }

    method LookAndGoOn(me: Pid, host: Host, t: Time) returns (look: Glance)
      requires Valid() && Pc(me) == ReadCache(host, t)
      modifies this
      ensures Valid() && old(trace) <= trace
      ensures match look
              case Hit(ips) => Pc(me) == Done(host, Addresses(ips), FromCache) && ips != []
              case Inflight(f) => Pc(me) == Wait(host, f) && f < |flights| && flights[f].leader != me
              case Miss => Pc(me).Register? && Pc(me).host == host
    {
      look := Look(me, host, t);
      NowKeepsInv(me);
      if look.Inflight? {
        OthersLead(me, host);
      }
      Interfere(me);
    }

    /** A goroutine that waits does not lead the flight that is registered. */
    lemma OthersLead(me: Pid, host: Host)
      requires Valid() && Pc(me).Wait? && host in dnsFlight
      ensures dnsFlight[host] < |flights| && flights[dnsFlight[host]].leader != me
    {
      NowKeepsInv(me);
      var f := dnsFlight[host];
      ReachableInv(Now());
      assert Leads(Pc(flights[f].leader), f);
    }

    method ReadClock(me: Pid, host: Host) returns (t: Time, ghost at: nat)
      requires Valid() && (Pc(me).Idle? || Pc(me).Done?)
      modifies this
      ensures Valid() && old(trace) <= trace
      ensures Pc(me) == ReadCache(host, t)
      ensures |old(trace)| <= at < |trace| && trace[at].Pc(me) == Start(host)
    {
      at := |trace|;
      Arrive(me, Start(host));
      Interfere(me);
      t := now;
      Arrive(me, ReadCache(host, t));
    }

    /** The section under the read lock, proxy.go:343-349. */
    method Look(me: Pid, host: Host, t: Time) returns (look: Glance)
      requires Valid() && Pc(me) == ReadCache(host, t)
      modifies this`procs, this`trace
      ensures Valid() && trace == old(trace) + [Now()]
      ensures match look
              case Hit(ips) => host in dnsCache && t < dnsCache[host].expire && ips == dnsCache[host].ips
                            && Pc(me) == Done(host, Addresses(ips), FromCache)
              case Inflight(f) => Pc(me) == Wait(host, f) && host in dnsFlight && f == dnsFlight[host]
              case Miss => Pc(me).Register? && Pc(me).host == host
    {
      if host in dnsCache && t < dnsCache[host].expire {
        look := Hit(dnsCache[host].ips);
        Arrive(me, Done(host, Addresses(dnsCache[host].ips), FromCache));
      } else if host in dnsFlight {
        look := Inflight(dnsFlight[host]);
        Arrive(me, Wait(host, dnsFlight[host]));
      } else {
        look := Miss;
        Arrive(me, Register(host, t, |log|));
      }
    }

    /** Select between the flight's end and the end of the caller's context. */
    method WaitFor(me: Pid, host: Host, f: FlightId, says: seq<IpAddr>, deadline: Time) returns (answer: Answer)
      requires Valid() && Pc(me) == Wait(host, f) && f < |flights| && flights[f].leader != me
      modifies this
      ensures Valid() && old(trace) <= trace
      ensures Answered(me, host, says, deadline) && Pc(me).answer == answer
      ensures Pc(me).source == FromFlight(f) || Pc(me).source == Cancelled
    {
      BlockForFlight(me, f, deadline);
      NowKeepsInv(me);
      ReachableArranged(Now());
      if {
        case flights[f].done =>
          answer := AnswerOf(flights[f].ips);
          Arrive(me, Done(host, answer, FromFlight(f)));
        case now >= deadline =>
          answer := AsGiven;
          Arrive(me, Done(host, answer, Cancelled));
      }
    }

    method RegisterOrWait(me: Pid, host: Host, says: seq<IpAddr>, deadline: Time) returns (answer: Answer)
      requires Valid() && Pc(me).Register? && Pc(me).host == host
      modifies this
      ensures Valid() && old(trace) <= trace
      ensures Answered(me, host, says, deadline) && Pc(me).answer == answer
    {
      var leader, f := TryRegister(me, host);
      if !leader {
        OthersLead(me, host);
      }
      Interfere(me);
      if leader {
        answer := Lead(me, host, f, says);
      } else {
        answer := WaitFor(me, host, f, says, deadline);
      }
    }

    /** The second look, under the write lock: at the flight map only. */
    method TryRegister(me: Pid, host: Host) returns (leader: bool, f: FlightId)
      requires Valid() && Pc(me).Register? && Pc(me).host == host
      modifies this`flights, this`dnsFlight, this`procs, this`trace
      ensures Valid() && trace == old(trace) + [Now()]
      ensures leader == (host !in old(dnsFlight))
      ensures Pc(me) == if leader then LookUp(host, f) else Wait(host, f)
      ensures flights == if leader then old(flights) + [Flight(host, me, [], [], false)] else old(flights)
      ensures dnsFlight == if leader then old(dnsFlight)[host := f] else old(dnsFlight)
      ensures host in dnsFlight && f == dnsFlight[host]
    {
      leader := host !in dnsFlight;
      if leader {
        f := |flights|;
        flights, dnsFlight := flights + [Flight(host, me, [], [], false)], dnsFlight[host := |flights|];
        Arrive(me, LookUp(host, f));
      } else {
        f := dnsFlight[host];
        Arrive(me, Wait(host, f));
      }
    }

    /** The leader's part, proxy.go:382-436. */
    method Lead(me: Pid, host: Host, f: FlightId, says: seq<IpAddr>) returns (answer: Answer)
      requires Valid() && Pc(me) == LookUp(host, f)
      modifies this
      ensures Valid() && old(trace) <= trace
      ensures Pc(me) == Done(host, answer, FromFlight(f)) && Answered(me, host, says, now)
    {
      var found, ips := LookUpAndPublish(me, host, f, says);
      answer := CloseFlight(me, host, f, found, ips);
      NowKeepsInv(me);
      ReachableArranged(Now());
    }

    method LookUpAndPublish(me: Pid, host: Host, f: FlightId, says: seq<IpAddr>)
      returns (found: seq<IpAddr>, ips: seq<IpAddr>)
      requires Valid() && Pc(me) == LookUp(host, f)
      modifies this
      ensures Valid() && old(trace) <= trace
      ensures Pc(me) == Signal(host, f, found, ips) && found == if host == "" then [] else says
    {
      var at;
      found, ips, at := LookUpHost(me, host, f, says);
      Interfere(me);
      PublishResult(me, host, f, found, ips, at);
      Interfere(me);
    }

    /** What the resolver says, put in order; a failed lookup, and any for no host, says nothing. */
    method LookUpHost(me: Pid, host: Host, f: FlightId, says: seq<IpAddr>)
      returns (found: seq<IpAddr>, ips: seq<IpAddr>, at: Time)
      requires Valid() && Pc(me) == LookUp(host, f)
      modifies this`procs, this`trace
      ensures Valid() && trace == old(trace) + [Now()]
      ensures found == if host == "" then [] else says
      ensures Pc(me) == Publish(host, f, found, ips, at) && at == old(now)
    {
      found := if host == "" then [] else says;
      ips, at := Ipv4First(found), now;
      Arrive(me, Publish(host, f, found, ips, at));
    }

    method PublishResult(me: Pid, host: Host, f: FlightId, found: seq<IpAddr>, ips: seq<IpAddr>, at: Time)
      requires Valid() && Pc(me) == Publish(host, f, found, ips, at)
      modifies this`dnsCache, this`dnsFlight, this`flights, this`log, this`procs, this`trace
      ensures Valid() && trace == old(trace) + [Now()]
      ensures Stores(old(dnsCache), host, ips, at, cap, ttl, dnsCache)
      ensures dnsFlight == old(dnsFlight) - {host}
      ensures f < |old(flights)| && flights == old(flights)[f := old(flights)[f].(found := found, ips := ips)]
      ensures Pc(me) == Signal(host, f, found, ips)
    {
      LeaderKnows(me);
      Store(host, ips, at);
      log := log + [Published(host, found, ips, at, old(dnsCache).Keys - dnsCache.Keys)];
      flights := flights[f := flights[f].(found := found, ips := ips)];
      dnsFlight := dnsFlight - {host};
      PublishIsAStep(old(Now()).g, me, old(Pc(me)), dnsCache);
      Arrive(me, Signal(host, f, found, ips));
    }

    /** proxy.go:400-427. */
    method Store(host: Host, ips: seq<IpAddr>, at: Time)
      requires "" !in dnsCache && cap >= 1 && |dnsCache| <= cap
      modifies this`dnsCache
      ensures Stores(old(dnsCache), host, ips, at, cap, ttl, dnsCache)
    {
      if |ips| == 0 {
        return;
      }
      if host !in dnsCache && |dnsCache| >= cap {
        DropExpired(at);
        if |dnsCache| >= cap {
          DropOldest();
        }
      }
      ghost var room := dnsCache;
      assert MakesRoom(old(dnsCache), host, at, cap, room);
      RoomIsMade(old(dnsCache), host, at, cap, room);  // so a result is never refused
      if host in dnsCache || |dnsCache| < cap {
        dnsCache := dnsCache[host := Entry(ips, at + ttl)];
      }
    }

    /** The first range loop: delete what has expired. */
    method DropExpired(at: Time)
      modifies this`dnsCache
      ensures dnsCache == Unexpired(old(dnsCache), at)
    {
      var todo := dnsCache.Keys;
      while todo != {}
        invariant todo <= old(dnsCache).Keys
        invariant dnsCache == map h | h in old(dnsCache) && (h in todo || at <= old(dnsCache)[h].expire) ::
                                old(dnsCache)[h]
      {
        var h :| h in todo;
        todo := todo - {h};
        if at > dnsCache[h].expire {
          dnsCache := dnsCache - {h};
        }
      }
    }

    /** The second range loop: find one entry that expires first, with "" for none yet. */
    method DropOldest()
      requires "" !in dnsCache && |dnsCache| > 0
      modifies this`dnsCache
      ensures exists victim :: Oldest(old(dnsCache), victim) && dnsCache == old(dnsCache) - {victim}
    {
      var victim, victimExpire := "", 0;
      var todo := dnsCache.Keys;
      while todo != {}
        invariant todo <= dnsCache.Keys && dnsCache == old(dnsCache)
        invariant victim == "" <==> todo == dnsCache.Keys
        invariant victim != "" ==> victim in dnsCache && victim !in todo && victimExpire == dnsCache[victim].expire
        invariant victim != "" ==> forall h :: h in dnsCache && h !in todo ==> victimExpire <= dnsCache[h].expire
      {
        var h :| h in todo;
        todo := todo - {h};
        if victim == "" || dnsCache[h].expire < victimExpire {
          victim, victimExpire := h, dnsCache[h].expire;
        }
      }
      if victim != "" {
        dnsCache := dnsCache - {victim};
      }
    }

    /** close(inflight.done). */
    method CloseFlight(me: Pid, host: Host, f: FlightId, found: seq<IpAddr>, ips: seq<IpAddr>) returns (answer: Answer)
      requires Valid() && Pc(me) == Signal(host, f, found, ips)
      modifies this`flights, this`procs, this`trace
      ensures Valid() && trace == old(trace) + [Now()]
      ensures f < |old(flights)| && old(flights)[f].found == found && old(flights)[f].ips == ips
      ensures flights == old(flights)[f := old(flights)[f].(done := true)]
      ensures Pc(me) == Done(host, answer, FromFlight(f)) && answer == AnswerOf(ips)
    {
      NowKeepsInv(me);
      flights := flights[f := flights[f].(done := true)];
      answer := AnswerOf(ips);
      Arrive(me, Done(host, answer, FromFlight(f)));
    }

    /** hostPorts, proxy.go:449-455. */
    method JoinAll(ips: seq<IpAddr>, port: string) returns (out: seq<Address>)
      ensures out == HostPorts(ips, port)
    {
      out := [];
      for i := 0 to |ips|
        invariant out == HostPorts(ips[..i], port)
      {
        out := out + [At(ips[i], port)];
      }
      assert ips[..|ips|] == ips;
    }
  }
}
