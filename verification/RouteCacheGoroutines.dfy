/** The route cache as code (route.go:35-52 and 186-289): records updated in place through the
    pointers in the map, and a cleanup that gives up the lock between its phases.  The ghost
    field `log` is the history in the order the lock was held. */
module RouteCacheGoroutines {
  import opened Common
  import opened RouteRace
  import opened RouteCache
  import opened RouteCacheCleanup

  /** targetInfo, types.go:40-46. */
  class TargetInfo {
    var via: Method
    var lastActive: Time
    var failed: bool

    /** The zero value. */
    constructor ()
      ensures via == SSH && lastActive == 0 && !failed
    {
      via, lastActive, failed := SSH, 0, false;
    }

    function Value(): Info
      reads this
    {
      Info(via, lastActive, failed)
    }
  }

  // ---- sort.Slice by time: some order in which the times ascend ----

  lemma StaysSorted(front: seq<CacheEntry>, e: CacheEntry, back: seq<CacheEntry>)
    requires SortedByTime(front + back)
    requires forall i :: 0 <= i < |front| ==> front[i].time < e.time
    requires back != [] ==> e.time <= back[0].time
    ensures SortedByTime(front + [e] + back)
  {
    var all, more, n := front + back, front + [e] + back, |front|;
    assert forall i :: 0 <= i < n ==> more[i] == all[i] == front[i];
    assert forall i :: n < i < |more| ==> more[i] == all[i - 1] && all[n] == back[0];
  }

  lemma OneMore(front: seq<CacheEntry>, e: CacheEntry, back: seq<CacheEntry>)
    ensures multiset(front + [e] + back) == multiset(front + back) + multiset{e}
  {
  }

  method InsertByTime(e: CacheEntry, entries: seq<CacheEntry>) returns (sorted: seq<CacheEntry>)
    requires SortedByTime(entries)
    ensures SortedByTime(sorted) && multiset(sorted) == multiset(entries) + multiset{e}
  {
    var k := 0;
    while k < |entries| && entries[k].time < e.time
      invariant 0 <= k <= |entries|
      invariant forall i :: 0 <= i < k ==> entries[i].time < e.time
    {
      k := k + 1;
    }
    sorted := entries[..k] + [e] + entries[k..];
    assert entries == entries[..k] + entries[k..];
    StaysSorted(entries[..k], e, entries[k..]);
    OneMore(entries[..k], e, entries[k..]);
  }

  method SortSlice(entries: seq<CacheEntry>) returns (sorted: seq<CacheEntry>)
    ensures SortedByTime(sorted) && multiset(sorted) == multiset(entries)
  {
    sorted := [];
    for i := 0 to |entries|
      invariant SortedByTime(sorted) && multiset(sorted) == multiset(entries[..i])
    {
      assert entries[..i + 1] == entries[..i] + [entries[i]];
      sorted := InsertByTime(entries[i], sorted);
    }
    assert entries[..|entries|] == entries;
  }

  class RouteTable {
    var routeCache: map<Addr, TargetInfo>
    var now: Time
    const maxCacheSize: nat
    ghost var log: History

    ghost function Contents(): map<Addr, Info>
      reads this, routeCache.Values
    {
      map a | a in routeCache :: routeCache[a].Value()
    }

    /** No two targets share a record. */
    ghost predicate Unshared()
      reads this`routeCache
    {
      forall a, b :: a in routeCache && b in routeCache && a != b ==> routeCache[a] != routeCache[b]
    }

    /** The records are the replay of the history. */
    ghost predicate Valid()
      reads this, routeCache.Values
    {
      && Unshared()
      && Contents() == Replay(log)
      && Lawful(log, now)
    }

    constructor (maxCacheSize: nat, now: Time)
      requires maxCacheSize > 0
      ensures Valid() && this.maxCacheSize == maxCacheSize && this.now == now && log == [] && routeCache == map[]
    {
      this.maxCacheSize, this.now := maxCacheSize, now;
      routeCache, log := map[], [];
    }

    ghost method Record(e: Event)
      requires Lawful(log, now) && (Stamped(e) ==> e.at == now)
      requires !e.Stored? ==> e.addr in Replay(log)
      requires e.Expired? ==> now - Replay(log)[e.addr].lastActive > ROUTE_TTL
      modifies this`log
      ensures log == old(log) + [e] && Lawful(log, now)
      ensures Replay(log) == Apply(old(Replay(log)), e)
    {
      LawfulGrows(log, now, e);
      ReplayOne(log, e);
      log := log + [e];
    }

    /** Nobody does anything until the clock says t. */
    method Wait(t: Time)
      requires Valid() && now <= t
      modifies this`now
      ensures Valid() && now == t
    {
      now := t;
    }

    /** Any number of stores and cleanups by others, and time. */
    method Interfere()
      requires Valid()
      modifies this, routeCache.Values
      ensures Valid() && old(log) <= log && old(now) <= now
      ensures fresh(routeCache.Values - old(routeCache.Values))
    {
    }

    // ---- selectRoute, route.go:35-52 ----

    /** Copies the record under the read lock, then looks at the clock.  `seen` is the history
        when the lock was held. */
    method Lookup(addr: Addr) returns (view: Option<Info>, fastFail: bool, ghost seen: History)
      requires Valid()
      modifies this, routeCache.Values
      ensures Valid() && fresh(routeCache.Values - old(routeCache.Values))
      ensures old(log) <= seen <= log && old(now) <= now
      ensures view.Some? <==> addr in Replay(seen)
      ensures view.Some? ==> Agrees(seen, addr, view.value)
      ensures fastFail <==> exists i :: && IsLast(seen, addr, i) && seen[i].Stored? && seen[i].outcome.Failed?
                                        && now - seen[i].at < ROUTE_NEGATIVE_TTL
    {
      seen := log;
      view := if addr in routeCache then Some(routeCache[addr].Value()) else None;
      assert view.Some? ==> view.value == Contents()[addr];
      Interfere();
      fastFail := view.Some? && view.value.failed && now - view.value.lastActive < ROUTE_NEGATIVE_TTL;
      ReplayMeans(seen, addr);
      FastFailsMeans(seen, addr, now);
    }

    // ---- storeRouteSuccess and storeRouteFailure ----

    /** The record of `addr`, a new one if there was none. */
    method RecordOf(addr: Addr) returns (info: TargetInfo)
      requires Unshared()
      modifies this`routeCache
      ensures Unshared() && addr in routeCache && routeCache[addr] == info
      ensures info in old(routeCache.Values) || fresh(info)
      ensures routeCache.Values <= old(routeCache.Values) + {info}
      ensures Contents() == if addr in old(routeCache) then old(Contents())
                            else old(Contents())[addr := Info(SSH, 0, false)]
    {
      if addr in routeCache {
        info := routeCache[addr];
      } else {
        info := new TargetInfo();
        routeCache := routeCache[addr := info];
      }
    }

    method SetInfo(addr: Addr, info: TargetInfo, via: Method, failed: bool)
      requires Unshared() && addr in routeCache && routeCache[addr] == info
      modifies info
      ensures Unshared() && Contents() == old(Contents())[addr := Info(via, now, failed)]
    {
      info.via, info.lastActive, info.failed := via, now, failed;
    }

    /** Finds or makes the record and writes to it; a failure leaves its method. */
    method Update(addr: Addr, outcome: Outcome)
      requires Unshared()
      modifies this`routeCache, routeCache.Values
      ensures Unshared() && Contents() == Apply(old(Contents()), Stored(addr, now, outcome))
      ensures fresh(routeCache.Values - old(routeCache.Values))
    {
      var info := RecordOf(addr);
      assert Contents()[addr].via == info.via == ViaOf(old(Contents()), addr);
      SetInfo(addr, info, if outcome.Worked? then outcome.via else info.via, outcome.Failed?);
    }

    /** The section under the lock, and its event. */
    method Store(addr: Addr, outcome: Outcome)
      requires Valid()
      modifies this`routeCache, this`log, routeCache.Values
      ensures Valid() && log == old(log) + [Stored(addr, now, outcome)]
      ensures Contents() == Apply(old(Contents()), Stored(addr, now, outcome))
      ensures fresh(routeCache.Values - old(routeCache.Values))
    {
      ghost var e := Stored(addr, now, outcome);
      Update(addr, outcome);
      Record(e);
    }

    method StoreRouteSuccess(addr: Addr, via: Method)
      requires Valid()
      modifies this`routeCache, this`log, routeCache.Values
      ensures Valid() && log == old(log) + [Stored(addr, now, Worked(via))]
      ensures Contents() == old(Contents())[addr := Info(via, now, false)]
      ensures fresh(routeCache.Values - old(routeCache.Values))
    {
      Store(addr, Worked(via));
    }

    method StoreRouteFailure(addr: Addr)
      requires Valid()
      modifies this`routeCache, this`log, routeCache.Values
      ensures Valid() && log == old(log) + [Stored(addr, now, Failed)]
      ensures Contents() == old(Contents())[addr := Info(ViaOf(old(Contents()), addr), now, true)]
      ensures fresh(routeCache.Values - old(routeCache.Values))
    {
      Store(addr, Failed);
    }

    // ---- cleanupRouteCache ----

    /** While the one cleanup goroutine is between locks, others store. */
    method Others()
      requires Valid()
      modifies this, routeCache.Values
      ensures Valid() && old(log) <= log && old(now) <= now
      ensures forall i :: |old(log)| <= i < |log| ==> log[i].Stored?
      ensures fresh(routeCache.Values - old(routeCache.Values))
    {
    }

    /** The first scan, under the read lock. */
    method CollectExpired(current: Time) returns (toDelete: seq<Addr>)
      requires Valid()
      ensures forall a :: a in toDelete <==> a in Contents() && current - Contents()[a].lastActive > ROUTE_TTL
    {
      toDelete := [];
      var rest := routeCache.Keys;
      while rest != {}
        invariant rest <= routeCache.Keys
        invariant forall a :: a in toDelete <==>
                    a in Contents() && a !in rest && current - Contents()[a].lastActive > ROUTE_TTL
        decreases |rest|
      {
        var a :| a in rest;
        if current - routeCache[a].lastActive > ROUTE_TTL {
          toDelete := toDelete + [a];
        }
        rest := rest - {a};
      }
    }

    method Delete(addr: Addr, ghost e: Event)
      requires Valid() && addr in routeCache && e.addr == addr && !e.Stored?
      requires e.Expired? ==> e.at == now && now - Contents()[addr].lastActive > ROUTE_TTL
      modifies this`routeCache, this`log
      ensures Valid() && log == old(log) + [e]
      ensures routeCache == old(routeCache) - {addr}
      ensures Contents() == old(Contents()) - {addr}
    {
      assert Replay(log) == Contents();
      routeCache := routeCache - {addr};
      Record(e);
    }

    method RemoveIfExpired(a: Addr)
      requires Valid()
      modifies this`routeCache, this`log
      ensures Valid() && routeCache.Values <= old(routeCache.Values)
      ensures if a in old(Contents()) && now - old(Contents())[a].lastActive > ROUTE_TTL
              then Contents() == old(Contents()) - {a} && log == old(log) + [Expired(a, now)]
              else Contents() == old(Contents()) && log == old(log)
    {
      if a in routeCache && now - routeCache[a].lastActive > ROUTE_TTL {
        Delete(a, Expired(a, now));
      }
    }

    /** The second look and the deletions, under the write lock. */
    method RemoveExpired(toDelete: seq<Addr>)
      requires Valid()
      modifies this`routeCache, this`log
      ensures Valid() && old(log) <= log
      ensures routeCache.Values <= old(routeCache.Values)
      ensures Contents() == Unexpired(old(Contents()), toDelete, now)
      ensures forall i :: |old(log)| <= i < |log| ==> log[i].Expired? && log[i].at == now
    {
      ghost var before := Contents();
      var i := 0;
      while i < |toDelete|
        invariant 0 <= i <= |toDelete|
        invariant Valid() && old(log) <= log
        invariant routeCache.Values <= old(routeCache.Values)
        invariant Contents() == Unexpired(before, toDelete[..i], now)
        invariant forall k :: |old(log)| <= k < |log| ==> log[k].Expired? && log[k].at == now
      {
        var a := toDelete[i];
        assert toDelete[..i + 1] == toDelete[..i] + [a];
        UnexpiredNext(before, toDelete[..i], a, now);
        RemoveIfExpired(a);
        i := i + 1;
      }
      assert toDelete[..|toDelete|] == toDelete;
    }

    /** The entries copied under the read lock when there are too many. */
    method CopyEntries() returns (entries: seq<CacheEntry>)
      requires Valid()
      ensures Copies(entries, Replay(log), {})
    {
      entries := [];
      var rest := routeCache.Keys;
      ghost var cache := Replay(log);
      assert cache == Contents();
      assert cache.Keys == rest;
      while rest != {}
        invariant rest <= routeCache.Keys && Copies(entries, cache, rest)
        decreases |rest|
      {
        var a :| a in rest;
        CopyOneMore(entries, cache, rest, a);
        entries, rest := entries + [CacheEntry(a, routeCache[a].lastActive)], rest - {a};
      }
    }

    method Remove(a: Addr)
      requires Valid()
      modifies this`routeCache, this`log
      ensures Valid() && routeCache.Values <= old(routeCache.Values)
      ensures Replay(log) == Replay(old(log)) - {a}
      ensures OnlyTrims(old(log), log)
    {
      if a in routeCache {
        Delete(a, OverLimit(a));
      }
    }

    /** The first `count` of the sorted copies, deleted under the write lock without another look. */
    method RemoveOldest(entries: seq<CacheEntry>, count: nat)
      requires Valid() && count <= |entries|
      modifies this`routeCache, this`log
      ensures Valid() && OnlyTrims(old(log), log)
      ensures routeCache.Values <= old(routeCache.Values)
      ensures Replay(log) == Replay(old(log)) - AddrsOf(entries[..count])
    {
      ghost var before := Replay(log);
      var i := 0;
      while i < count
        invariant 0 <= i <= count
        invariant Valid() && OnlyTrims(old(log), log)
        invariant routeCache.Values <= old(routeCache.Values)
        invariant Replay(log) == before - AddrsOf(entries[..i])
      {
        RemoveAt(entries, i, before, old(log));
        i := i + 1;
      }
    }

    method RemoveAt(entries: seq<CacheEntry>, i: nat, ghost before: map<Addr, Info>, ghost start: History)
      requires Valid() && i < |entries| && OnlyTrims(start, log)
      requires Replay(log) == before - AddrsOf(entries[..i])
      modifies this`routeCache, this`log
      ensures Valid() && OnlyTrims(start, log) && routeCache.Values <= old(routeCache.Values)
      ensures Replay(log) == before - AddrsOf(entries[..i + 1])
    {
      var a := entries[i].addr;
      Remove(a);
      OnlyTrimsOn(start, old(log), log);
      OneMoreGone(entries, i, before);
    }

    /** The first phase, route.go:232-258. */
    method RemoveStale()
      requires Valid()
      modifies this, routeCache.Values
      ensures Valid() && fresh(routeCache.Values - old(routeCache.Values))
      ensures old(log) <= log && old(now) <= now
      ensures NothingStored(log, |old(log)|) ==> Replay(log) == NotStale(Replay(old(log)), old(now))
    {
      var toDelete := CollectExpired(now);
      if |toDelete| > 0 {
        Others();
        ghost var stored := log;
        RemoveExpired(toDelete);
        assert stored <= log;
        if NothingStored(log, |old(log)|) {
          NothingNew(old(log), stored, log);
          NotStaleByScan(old(Contents()), toDelete, old(now), now);
        }
      }
    }

    method RemoveStaleAndGoOn()
      requires Valid()
      modifies this, routeCache.Values
      ensures Valid() && fresh(routeCache.Values - old(routeCache.Values))
      ensures old(log) <= log && old(now) <= now
      ensures NothingStored(log, |old(log)|) ==> Replay(log) == NotStale(Replay(old(log)), old(now))
    {
      RemoveStale();
      ghost var stale := log;
      Others();
      if NothingStored(log, |old(log)|) {
        NothingStoredBefore(stale, log, |old(log)|);
        NothingNew(stale, log, log);
      }
    }

    /** The second phase, route.go:260-288. */
    method RemoveExcess() returns (ghost stored: nat)
      requires Valid()
      modifies this, routeCache.Values
      ensures Valid() && fresh(routeCache.Values - old(routeCache.Values))
      ensures old(log) <= log && old(now) <= now
      ensures |old(log)| <= stored <= |log| && Trimmed(old(log), log[..stored], log, maxCacheSize)
    {
      var size := Size();
      stored := |log|;
      if size > maxCacheSize {
        stored := Trim();
      } else {
        assert log[..stored] == log;
        NothingToTrim(log, maxCacheSize);
      }
    }

    method RemoveExcessSoFar() returns (ghost check: nat, ghost stored: nat)
      requires Valid()
      modifies this, routeCache.Values
      ensures Valid() && fresh(routeCache.Values - old(routeCache.Values))
      ensures old(log) <= log && old(now) <= now
      ensures check == |old(log)| && log[..check] == old(log)
      ensures check <= stored <= |log| && Trimmed(log[..check], log[..stored], log, maxCacheSize)
    {
      check := |log|;
      stored := RemoveExcess();
      assert log[..check] == old(log);
    }

    method Trim() returns (ghost stored: nat)
      requires Valid() && maxCacheSize < |Replay(log)|
      modifies this, routeCache.Values
      ensures Valid() && fresh(routeCache.Values - old(routeCache.Values))
      ensures old(log) <= log && old(now) <= now
      ensures |old(log)| <= stored <= |log| && Trimmed(old(log), log[..stored], log, maxCacheSize)
    {
      var entries := CopyAndGoOn();
      stored := DeleteFirst(entries, old(log));
    }

    /** From here on the history is only that of the deletions. */
    method DeleteFirst(entries: seq<CacheEntry>, ghost counted: History) returns (ghost stored: nat)
      requires Valid() && counted <= log && Copies(entries, Replay(counted), {}) && maxCacheSize < |Replay(counted)|
      requires forall i :: |counted| <= i < |log| ==> log[i].Stored?
      modifies this`routeCache, this`log
      ensures Valid() && routeCache.Values <= old(routeCache.Values)
      ensures stored == |old(log)| && old(log) <= log && Trimmed(counted, log[..stored], log, maxCacheSize)
    {
      stored := |log|;
      RemoveFirst(entries, counted);
      assert log[..stored] == old(log);
    }

    method CopyAndGoOn() returns (entries: seq<CacheEntry>)
      requires Valid()
      modifies this, routeCache.Values
      ensures Valid() && fresh(routeCache.Values - old(routeCache.Values))
      ensures old(log) <= log && old(now) <= now && forall i :: |old(log)| <= i < |log| ==> log[i].Stored?
      ensures Copies(entries, Replay(old(log)), {})
    {
      entries := CopyEntries();
      Others();
    }

    /** len(s.routeCache). */
    method Size() returns (size: nat)
      requires Valid()
      ensures size == |Replay(log)|
    {
      size := |routeCache|;
      assert routeCache.Keys == Contents().Keys;
    }

    method RemoveFirst(entries: seq<CacheEntry>, ghost counted: History)
      requires Valid() && counted <= log && Copies(entries, Replay(counted), {}) && maxCacheSize < |Replay(counted)|
      requires forall i :: |counted| <= i < |log| ==> log[i].Stored?
      modifies this`routeCache, this`log
      ensures Valid() && routeCache.Values <= old(routeCache.Values)
      ensures Trimmed(counted, old(log), log, maxCacheSize)
    {
      var sorted := SortSlice(entries);
      SortedCopies(entries, sorted, Replay(counted));
      RemoveTooMany(sorted, counted);
      ExcessMeans(counted, old(log), log, sorted, maxCacheSize, now);
    }

    method RemoveTooMany(sorted: seq<CacheEntry>, ghost counted: History)
      requires Valid() && counted <= log && Copies(sorted, Replay(counted), {}) && SortedByTime(sorted)
      requires maxCacheSize < |sorted|
      requires forall i :: |counted| <= i < |log| ==> log[i].Stored?
      modifies this`routeCache, this`log
      ensures Valid() && routeCache.Values <= old(routeCache.Values)
      ensures Lawful(old(log), now) && ExcessRemoved(counted, old(log), log, sorted, maxCacheSize)
    {
      var toRemoveCount := |sorted| - maxCacheSize;
      if toRemoveCount > 0 {
        RemoveOldest(sorted, toRemoveCount);
      }
    }

    /** `start` is when it begins, `check` where the history is when it counts the entries and
        `stored` where it is when the deletions of the second phase begin.  Whatever is stored
        meanwhile: the second phase evicts as many as are too many at the check, and of those
        counted there none that was used later than one it leaves; it evicts an entry newer than one
        it leaves exactly if that entry was used again after the check, too late; the cache ends
        within its limit but for insertions since.  With nothing stored meanwhile the cleanup leaves
        no entry older than thirty minutes and at most the limit, and evicts nothing younger that is
        newer than something kept. */
    method CleanupRouteCache() returns (ghost start: Time, ghost check: nat, ghost stored: nat)
      requires Valid()
      modifies this, routeCache.Values
      ensures Valid() && fresh(routeCache.Values - old(routeCache.Values))
      ensures old(log) <= log && old(now) <= start <= now && |old(log)| <= check <= stored <= |log|
      ensures |Replay(log)| <= maxCacheSize + |Insertions(log, check)|
      ensures EvictsOldest(Replay(log[..check]), Replay(log), maxCacheSize)
      ensures NewerGoOnlyIfRefreshed(log[..check], log[..stored], log)
      ensures NothingStored(log, |old(log)|) ==> CleanFor(Replay(old(log)), Replay(log), start, maxCacheSize)
    {
      start := now;
      check, stored := BothPhases();
      if NothingStored(log, |old(log)|) {
        CleanAlone(old(log), log[..check], log[..stored], log, start, maxCacheSize);
      }
    }

    method BothPhases() returns (ghost check: nat, ghost stored: nat)
      requires Valid()
      modifies this, routeCache.Values
      ensures Valid() && fresh(routeCache.Values - old(routeCache.Values))
      ensures old(log) <= log && old(now) <= now && |old(log)| <= check <= stored <= |log|
      ensures Trimmed(log[..check], log[..stored], log, maxCacheSize)
      ensures NothingStored(log[..check], |old(log)|) ==>
                Replay(log[..check]) == NotStale(Replay(old(log)), old(now))
    {
      RemoveStaleAndGoOn();
      ghost var counted := log;
      check, stored := RemoveExcessSoFar();
      assert log[..check] == counted;
    }
  }

  // ---- a run in which a newer entry goes ----

  method TwoTargets(a: Addr, b: Addr) returns (table: RouteTable)
    ensures fresh(table) && fresh(table.routeCache.Values) && table.Valid()
    ensures table.log == TwoStores(a, b) && table.maxCacheSize == 1 && table.now == 1
  {
    table := new RouteTable(1, 0);
    table.StoreRouteSuccess(a, SSH);
    table.Wait(1);
    table.StoreRouteSuccess(b, SSH);
  }

  method UseAgain(table: RouteTable, a: Addr)
    requires table.Valid() && table.now == 1
    modifies table, table.routeCache.Values
    ensures table.Valid() && table.log == old(table.log) + [Stored(a, 2, Worked(SSH))]
    ensures fresh(table.routeCache.Values - old(table.routeCache.Values))
  {
    table.Wait(2);
    table.StoreRouteSuccess(a, SSH);
  }

  /** A run of the second phase in which the entry used last goes and the other stays: between
      the copying and the deletions it is used again. */
  method EvictTheNewest(a: Addr, b: Addr) returns (table: RouteTable, ghost counted: History, ghost stored: History)
    requires a != b
    ensures fresh(table) && table.Valid()
    ensures EvictsNewer(stored, table.log, a, b) && RefreshedTooLate(counted, stored, table.log, a, b)
  {
    table := TwoTargets(a, b);
    counted := table.log;
    TwoAreCached(a, b);
    var entries := table.CopyEntries();
    UseAgain(table, a);
    stored := table.log;
    table.RemoveFirst(entries, counted);
    TheNewestGoes(counted, stored, table.log, a, b);
  }
}
