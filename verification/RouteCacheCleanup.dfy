/** What a cleanup of the route cache does to its history (route.go:231-289): the values the
    phases compute, apart from the records and the locks. */
module RouteCacheCleanup {
  import opened Common
  import opened RouteRace
  import opened RouteCache

  /** What the second phase of a cleanup copies out of an entry. */
  datatype CacheEntry = CacheEntry(addr: Addr, time: Time)

  ghost predicate SortedByTime(entries: seq<CacheEntry>) {
    forall i, j :: 0 <= i < j < |entries| ==> entries[i].time <= entries[j].time
  }

  predicate Distinct(entries: seq<CacheEntry>) {
    forall i, j :: 0 <= i < j < |entries| ==> entries[i].addr != entries[j].addr
  }

  ghost function AddrsOf(entries: seq<CacheEntry>): set<Addr> {
    set i | 0 <= i < |entries| :: entries[i].addr
  }

  lemma AddrsAppend(entries: seq<CacheEntry>, e: CacheEntry)
    ensures AddrsOf(entries + [e]) == AddrsOf(entries) + {e.addr}
    ensures Distinct(entries) && e.addr !in AddrsOf(entries) ==> Distinct(entries + [e])
  {
    var after := entries + [e];
    assert after[|entries|] == e;
    assert forall i :: 0 <= i < |entries| ==> after[i] == entries[i] && entries[i].addr in AddrsOf(entries);
  }

  lemma {:induction false} DistinctCount(entries: seq<CacheEntry>)
    requires Distinct(entries)
    ensures |AddrsOf(entries)| == |entries|
  {
    if entries != [] {
      var n := |entries| - 1;
      DistinctCount(entries[..n]);
      AddrsAppend(entries[..n], entries[n]);
      assert entries == entries[..n] + [entries[n]];
    }
  }

  lemma {:induction false} CountDistinct(entries: seq<CacheEntry>)
    ensures |AddrsOf(entries)| <= |entries|
    ensures |AddrsOf(entries)| == |entries| ==> Distinct(entries)
  {
    if entries != [] {
      var n := |entries| - 1;
      CountDistinct(entries[..n]);
      AddrsAppend(entries[..n], entries[n]);
      assert entries == entries[..n] + [entries[n]];
    }
  }

  /** The entries of `entries` are the records of `cache`, each once, all but those of `rest`. */
  ghost predicate Copies(entries: seq<CacheEntry>, cache: map<Addr, Info>, rest: set<Addr>) {
    && Distinct(entries)
    && AddrsOf(entries) !! rest
    && AddrsOf(entries) + rest == cache.Keys
    && forall i :: 0 <= i < |entries| ==>
         entries[i].addr in cache && entries[i].time == cache[entries[i].addr].lastActive
  }

  lemma CopyOneMore(entries: seq<CacheEntry>, cache: map<Addr, Info>, rest: set<Addr>, a: Addr)
    requires Copies(entries, cache, rest) && a in rest
    ensures Copies(entries + [CacheEntry(a, cache[a].lastActive)], cache, rest - {a})
  {
    AddrsAppend(entries, CacheEntry(a, cache[a].lastActive));
  }

  /** What is left of `cache` when those of `addrs` that are too old at `now` are deleted. */
  function Unexpired(cache: map<Addr, Info>, addrs: seq<Addr>, now: Time): map<Addr, Info> {
    map a | a in cache && !(a in addrs && now - cache[a].lastActive > ROUTE_TTL) :: cache[a]
  }

  lemma UnexpiredNext(cache: map<Addr, Info>, addrs: seq<Addr>, a: Addr, now: Time)
    ensures Unexpired(cache, addrs + [a], now)
         == if a in cache && now - cache[a].lastActive > ROUTE_TTL then Unexpired(cache, addrs, now) - {a}
            else Unexpired(cache, addrs, now)
    ensures a in Unexpired(cache, addrs, now) ==> a in cache && Unexpired(cache, addrs, now)[a] == cache[a]
  {
  }

  lemma MinusMinus<K, V>(m: map<K, V>, some: set<K>, k: K)
    ensures m - some - {k} == m - (some + {k})
  {
  }

  // ---- what a cleanup does ----

  lemma OneMoreGone(entries: seq<CacheEntry>, i: nat, before: map<Addr, Info>)
    requires i < |entries|
    ensures before - AddrsOf(entries[..i]) - {entries[i].addr} == before - AddrsOf(entries[..i + 1])
  {
    AddrsAppend(entries[..i], entries[i]);
    MinusMinus(before, AddrsOf(entries[..i]), entries[i].addr);
    assert entries[..i + 1] == entries[..i] + [entries[i]];
  }

  ghost predicate NothingStored(log: History, from: nat) {
    forall i :: from <= i < |log| ==> !log[i].Stored?
  }

  ghost predicate OnlyTrims(before: History, log: History) {
    before <= log && forall i :: |before| <= i < |log| ==> log[i].OverLimit?
  }

  lemma OnlyTrimsOn(before: History, middle: History, log: History)
    requires OnlyTrims(before, middle) && OnlyTrims(middle, log)
    ensures OnlyTrims(before, log)
  {
  }

  ghost predicate Submap(a: map<Addr, Info>, b: map<Addr, Info>) {
    forall k :: k in a ==> k in b && a[k] == b[k]
  }

  function NotStale(cache: map<Addr, Info>, now: Time): map<Addr, Info> {
    map a | a in cache && now - cache[a].lastActive <= ROUTE_TTL :: cache[a]
  }

  /** From what was counted, exactly the excess is gone, and nothing used later than what
      is left. */
  ghost predicate EvictsOldest(counted: map<Addr, Info>, after: map<Addr, Info>, max: nat) {
    && |counted.Keys - after.Keys| == (if |counted| > max then |counted| - max else 0)
    && forall v, k :: v in counted && v !in after && k in counted && k in after ==>
                        counted[v].lastActive <= counted[k].lastActive
  }

  ghost predicate CleanFor(before: map<Addr, Info>, after: map<Addr, Info>, start: Time, max: nat) {
    && Submap(after, before)
    && |after| <= max
    && (forall a :: a in after ==> start - after[a].lastActive <= ROUTE_TTL)
    && (forall v, k :: v in before && v !in after && start - before[v].lastActive <= ROUTE_TTL && k in after ==>
                         before[v].lastActive <= after[k].lastActive)
  }

  lemma CleanMeans(before: map<Addr, Info>, counted: map<Addr, Info>, after: map<Addr, Info>, start: Time, max: nat)
    requires counted == NotStale(before, start)
    requires Submap(after, counted) && |after| <= max && EvictsOldest(counted, after, max)
    ensures CleanFor(before, after, start, max)
  {
  }

  lemma NotStaleByScan(cache: map<Addr, Info>, toDelete: seq<Addr>, start: Time, now: Time)
    requires start <= now
    requires forall a :: a in toDelete <==> a in cache && start - cache[a].lastActive > ROUTE_TTL
    ensures Unexpired(cache, toDelete, now) == NotStale(cache, start)
  {
  }

  lemma NothingStoredBefore(some: History, log: History, from: nat)
    requires some <= log && NothingStored(log, from)
    ensures NothingStored(some, from) && (from <= |some| ==> NothingStored(log, |some|))
  {
    assert forall i :: 0 <= i < |some| ==> some[i] == log[i];
  }

  function At(log: History, i: nat): Option<Event> {
    if i < |log| then Some(log[i]) else None
  }

  /** What only stores can have added was not added. */
  lemma NothingNew(before: History, stored: History, log: History)
    requires before <= stored <= log && NothingStored(log, |before|)
    requires forall i :: |before| <= i < |stored| ==> stored[i].Stored?
    ensures stored == before
  {
    assert forall i :: 0 <= i < |stored| ==> stored[i] == log[i];
    var first := At(stored, |before|);
    if first.Some? {
      assert false;
    }
  }

  // ---- any order of the copies in which the times ascend ----

  lemma SameAddrs(sorted: seq<CacheEntry>, entries: seq<CacheEntry>)
    requires multiset(sorted) == multiset(entries)
    ensures forall e :: e in sorted <==> e in entries
    ensures AddrsOf(sorted) == AddrsOf(entries)
  {
    forall e ensures e in sorted <==> e in entries {
      assert e in sorted <==> e in multiset(sorted);
      assert e in entries <==> e in multiset(entries);
    }
    forall i | 0 <= i < |sorted| ensures sorted[i].addr in AddrsOf(entries) {
      assert sorted[i] in entries;
    }
    forall i | 0 <= i < |entries| ensures entries[i].addr in AddrsOf(sorted) {
      assert entries[i] in sorted;
    }
  }

  lemma SortedCopies(entries: seq<CacheEntry>, sorted: seq<CacheEntry>, cache: map<Addr, Info>)
    requires multiset(sorted) == multiset(entries) && Copies(entries, cache, {})
    ensures Copies(sorted, cache, {}) && |sorted| == |cache|
  {
    SameAddrs(sorted, entries);
    DistinctCount(entries);
    assert |multiset(sorted)| == |multiset(entries)|;
    CountDistinct(sorted);
    forall i | 0 <= i < |sorted|
      ensures sorted[i].addr in cache && sorted[i].time == cache[sorted[i].addr].lastActive
    {
      assert sorted[i] in entries;
    }
  }

  lemma {:induction false} StoresKeepKeys(log: History, from: nat)
    requires from <= |log| && forall i :: from <= i < |log| ==> log[i].Stored?
    ensures Replay(log[..from]).Keys <= Replay(log).Keys
    decreases |log|
  {
    if from == |log| {
      assert log[..from] == log;
    } else {
      var init := log[..|log| - 1];
      assert init[..from] == log[..from];
      StoresKeepKeys(init, from);
    }
  }

  /** The first copies in the order of their times were deleted, after some stores. */
  ghost predicate ExcessRemoved(before: History, stored: History, log: History, sorted: seq<CacheEntry>, max: nat) {
    && before <= stored <= log
    && (forall i :: |before| <= i < |stored| ==> stored[i].Stored?)
    && Copies(sorted, Replay(before), {}) && SortedByTime(sorted) && max < |sorted|
    && Replay(log) == Replay(stored) - AddrsOf(sorted[..|sorted| - max])
  }

  lemma ExcessWasThere(before: History, stored: History, log: History, sorted: seq<CacheEntry>, max: nat)
    requires ExcessRemoved(before, stored, log, sorted, max)
    ensures AddrsOf(sorted[..|sorted| - max]) <= Replay(before).Keys <= Replay(stored).Keys
    ensures |AddrsOf(sorted[..|sorted| - max])| == |Replay(before)| - max && max < |Replay(before)|
  {
    var first := sorted[..|sorted| - max];
    DistinctCount(sorted);
    DistinctCount(first);
    assert stored[..|before|] == before;
    StoresKeepKeys(stored, |before|);
    assert forall i :: 0 <= i < |first| ==> first[i] == sorted[i];
  }

  lemma ExcessIsOldest(before: History, stored: History, log: History, sorted: seq<CacheEntry>, max: nat)
    requires ExcessRemoved(before, stored, log, sorted, max)
    ensures EvictsOldest(Replay(before), Replay(log), max)
  {
    ExcessWasThere(before, stored, log, sorted, max);
    FirstCopiesAreOldest(Replay(before), Replay(stored), Replay(log), sorted, max);
  }

  lemma FirstCopiesAreOldest(counted: map<Addr, Info>, stored: map<Addr, Info>, after: map<Addr, Info>,
                             sorted: seq<CacheEntry>, max: nat)
    requires Copies(sorted, counted, {}) && SortedByTime(sorted) && max < |counted| && max < |sorted|
    requires AddrsOf(sorted[..|sorted| - max]) <= counted.Keys <= stored.Keys
    requires |AddrsOf(sorted[..|sorted| - max])| == |counted| - max
    requires after == stored - AddrsOf(sorted[..|sorted| - max])
    ensures EvictsOldest(counted, after, max)
  {
    OldestFirst(counted, sorted, |sorted| - max);
    GoneAreOldest(counted, stored, after, AddrsOf(sorted[..|sorted| - max]), max);
  }

  lemma ExcessMakesRoom(before: History, stored: History, log: History, sorted: seq<CacheEntry>, max: nat)
    requires ExcessRemoved(before, stored, log, sorted, max)
    ensures |Replay(log)| <= max + |Insertions(log, |before|)|
  {
    ExcessWasThere(before, stored, log, sorted, max);
    assert log[..|before|] == before;
    SizeSince(log, |before|, AddrsOf(sorted[..|sorted| - max]));
  }

  lemma ExcessAlone(before: History, stored: History, log: History, sorted: seq<CacheEntry>, max: nat)
    requires ExcessRemoved(before, stored, log, sorted, max) && NothingStored(log, |before|)
    ensures Submap(Replay(log), Replay(before))
  {
    NothingNew(before, stored, log);
  }

  // ---- which newer entries go ----

  /** From stored to log, a goes and b stays, although a was used later. */
  ghost predicate EvictsNewer(stored: History, log: History, a: Addr, b: Addr) {
    && a in Replay(stored) && a !in Replay(log) && b in Replay(stored) && b in Replay(log)
    && Replay(stored)[a].lastActive > Replay(stored)[b].lastActive
  }

  /** Of the entries counted, a goes, b stays, and between the count and the deletions a was
      used later than b ever was. */
  ghost predicate RefreshedTooLate(counted: History, stored: History, log: History, a: Addr, b: Addr) {
    && a in Replay(counted) && a !in Replay(log) && b in Replay(stored) && b in Replay(log)
    && exists i :: |counted| <= i < |stored| && UsedAfter(stored, i, a, Replay(stored)[b].lastActive)
  }

  ghost predicate UsedAfter(log: History, i: int, a: Addr, t: Time) {
    0 <= i < |log| && log[i].Stored? && log[i].addr == a && log[i].at > t
  }

  /** The time of a record is that of a store to it, and no store to it was later. */
  lemma LastUse(log: History, now: Time, a: Addr) returns (k: nat)
    requires Lawful(log, now) && a in Replay(log)
    ensures k < |log| && IsLast(log, a, k) && log[k].Stored? && Replay(log)[a].lastActive == log[k].at
    ensures forall i :: 0 <= i < |log| && log[i].Stored? && log[i].addr == a ==> i <= k && log[i].at <= log[k].at
  {
    ReplayMeans(log, a);
    k :| IsLast(log, a, k) && log[k].Stored? && Replay(log)[a].lastActive == log[k].at;
    assert EventOk(log, k);
  }

  lemma LastUseBefore(before: History, stored: History, a: Addr, k: nat)
    requires before <= stored && k < |before| && IsLast(stored, a, k) && stored[k].Stored?
    ensures a in Replay(before) && Replay(before)[a].lastActive == stored[k].at
  {
    assert forall i :: 0 <= i < |before| ==> before[i] == stored[i];
    assert IsLast(before, a, k);
    ReplayMeans(before, a);
    var m :| IsLast(before, a, m) && before[m].Stored? && Replay(before)[a].lastActive == before[m].at;
    assert m == k;
  }

  /** A newer entry goes and an older stays exactly when the one that goes was used again between
      the count and the deletions, later than the other ever was. */
  lemma NewerGoesIffRefreshed(counted: History, stored: History, log: History, sorted: seq<CacheEntry>, max: nat,
                              now: Time, a: Addr, b: Addr)
    requires Lawful(stored, now) && ExcessRemoved(counted, stored, log, sorted, max)
    ensures EvictsNewer(stored, log, a, b) <==> RefreshedTooLate(counted, stored, log, a, b)
  {
    ExcessWasThere(counted, stored, log, sorted, max);
    if EvictsNewer(stored, log, a, b) {
      NewerWasRefreshed(counted, stored, log, sorted, max, now, a, b);
    }
    if RefreshedTooLate(counted, stored, log, a, b) {
      var i :| |counted| <= i < |stored| && UsedAfter(stored, i, a, Replay(stored)[b].lastActive);
      var k := LastUse(stored, now, a);
      assert stored[i].at <= stored[k].at;
    }
  }

  lemma NewerWasRefreshed(counted: History, stored: History, log: History, sorted: seq<CacheEntry>, max: nat,
                          now: Time, a: Addr, b: Addr)
    requires Lawful(stored, now) && ExcessRemoved(counted, stored, log, sorted, max) && EvictsNewer(stored, log, a, b)
    ensures RefreshedTooLate(counted, stored, log, a, b)
  {
    ExcessWasThere(counted, stored, log, sorted, max);
    var k := LastUse(stored, now, a);
    if k < |counted| {
      UnusedIsOlder(counted, stored, log, sorted, max, now, a, b, k);
      assert false;
    }
    assert UsedAfter(stored, k, a, Replay(stored)[b].lastActive);
  }

  /** One that goes and was not used since the count is no newer than one that stays. */
  lemma UnusedIsOlder(counted: History, stored: History, log: History, sorted: seq<CacheEntry>, max: nat,
                      now: Time, a: Addr, b: Addr, k: nat)
    requires Lawful(stored, now) && ExcessRemoved(counted, stored, log, sorted, max)
    requires k < |counted| && IsLast(stored, a, k) && stored[k].Stored?
    requires a in AddrsOf(sorted[..|sorted| - max]) && b in Replay(log)
    ensures b in Replay(stored) && stored[k].at <= Replay(stored)[b].lastActive
  {
    var m := LastUse(stored, now, b);
    LastUseBefore(counted, stored, a, k);
    if m < |counted| {
      LastUseBefore(counted, stored, b, m);
      OldestFirst(Replay(counted), sorted, |sorted| - max);
    } else {
      assert EventOk(stored, m);
    }
  }

  /** What the second phase comes to, from the history it counted over the one in which it
      deletes to the one it ends with. */
  ghost predicate Trimmed(counted: History, stored: History, log: History, max: nat) {
    && counted <= stored <= log && Replay(log).Keys <= Replay(stored).Keys
    && EvictsOldest(Replay(counted), Replay(log), max)
    && |Replay(log)| <= max + |Insertions(log, |counted|)|
    && (NothingStored(log, |counted|) ==> Submap(Replay(log), Replay(counted)))
    && NewerGoOnlyIfRefreshed(counted, stored, log)
  }

  ghost predicate NewerGoOnlyIfRefreshed(counted: History, stored: History, log: History) {
    forall a, b :: EvictsNewer(stored, log, a, b) <==> RefreshedTooLate(counted, stored, log, a, b)
  }

  lemma NothingToTrim(log: History, max: nat)
    requires |Replay(log)| <= max
    ensures Trimmed(log, log, log, max)
  {
    assert Replay(log).Keys - Replay(log).Keys == {};
  }

  lemma ExcessMeans(before: History, stored: History, log: History, sorted: seq<CacheEntry>, max: nat, now: Time)
    requires Lawful(stored, now) && ExcessRemoved(before, stored, log, sorted, max)
    ensures Trimmed(before, stored, log, max)
  {
    ExcessIsOldest(before, stored, log, sorted, max);
    ExcessMakesRoom(before, stored, log, sorted, max);
    if NothingStored(log, |before|) {
      ExcessAlone(before, stored, log, sorted, max);
    }
    forall a, b ensures EvictsNewer(stored, log, a, b) <==> RefreshedTooLate(before, stored, log, a, b) {
      NewerGoesIffRefreshed(before, stored, log, sorted, max, now, a, b);
    }
  }

  lemma GoneAreOldest(counted: map<Addr, Info>, stored: map<Addr, Info>, after: map<Addr, Info>, gone: set<Addr>,
                      max: nat)
    requires gone <= counted.Keys <= stored.Keys && max < |counted| && |gone| == |counted| - max
    requires forall v, k :: v in gone && k in counted && k !in gone ==>
               v in counted && counted[v].lastActive <= counted[k].lastActive
    requires after == stored - gone
    ensures EvictsOldest(counted, after, max)
  {
    assert counted.Keys - after.Keys == gone;
  }

  lemma OldestFirst(cache: map<Addr, Info>, sorted: seq<CacheEntry>, n: nat)
    requires Copies(sorted, cache, {}) && SortedByTime(sorted) && n <= |sorted|
    ensures forall v, k :: v in AddrsOf(sorted[..n]) && k in cache && k !in AddrsOf(sorted[..n]) ==>
                             v in cache && cache[v].lastActive <= cache[k].lastActive
  {
    assert forall m :: 0 <= m < n ==> sorted[..n][m] == sorted[m];
    forall v, k | v in AddrsOf(sorted[..n]) && k in cache && k !in AddrsOf(sorted[..n])
      ensures v in cache && cache[v].lastActive <= cache[k].lastActive
    {
      var i :| 0 <= i < n && sorted[..n][i].addr == v;
      assert k in AddrsOf(sorted);
      var j :| 0 <= j < |sorted| && sorted[j].addr == k;
    }
  }

  lemma CleanAlone(before: History, counted: History, stored: History, log: History, start: Time, max: nat)
    requires before <= counted && Trimmed(counted, stored, log, max) && NothingStored(log, |before|)
    requires NothingStored(counted, |before|) ==> Replay(counted) == NotStale(Replay(before), start)
    ensures CleanFor(Replay(before), Replay(log), start, max)
  {
    NothingStoredBefore(counted, log, |before|);
    assert Insertions(log, |counted|) == {};
    CleanMeans(Replay(before), Replay(counted), Replay(log), start, max);
  }

  // ---- one such history ----

  function TwoStores(a: Addr, b: Addr): History {
    [Stored(a, 0, Worked(SSH)), Stored(b, 1, Worked(SSH))]
  }

  lemma ReplayTwo(a: Addr, b: Addr)
    requires a != b
    ensures Replay(TwoStores(a, b)) == map[a := Info(SSH, 0, false), b := Info(SSH, 1, false)]
  {
    var one, two := Stored(a, 0, Worked(SSH)), Stored(b, 1, Worked(SSH));
    ReplayOne([], one);
    ReplayOne([one], two);
    assert [] + [one] == [one] && [one] + [two] == TwoStores(a, b);
  }

  lemma ReplayThree(a: Addr, b: Addr)
    requires a != b
    ensures Replay(TwoStores(a, b) + [Stored(a, 2, Worked(SSH))])
            == map[a := Info(SSH, 2, false), b := Info(SSH, 1, false)]
  {
    ReplayTwo(a, b);
    ReplayOne(TwoStores(a, b), Stored(a, 2, Worked(SSH)));
  }

  lemma TwoAreCached(a: Addr, b: Addr)
    requires a != b
    ensures Replay(TwoStores(a, b)).Keys == {a, b} && |Replay(TwoStores(a, b))| == 2
  {
    ReplayTwo(a, b);
    assert Replay(TwoStores(a, b)).Keys == {a, b};
  }

  /** In a cache for one, used again too late, a goes. */
  lemma TheNewestGoes(counted: History, stored: History, log: History, a: Addr, b: Addr)
    requires a != b && counted == TwoStores(a, b) && stored == counted + [Stored(a, 2, Worked(SSH))]
    requires Trimmed(counted, stored, log, 1)
    ensures EvictsNewer(stored, log, a, b) && RefreshedTooLate(counted, stored, log, a, b)
  {
    TwoAreCached(a, b);
    ReplayTwo(a, b);
    ReplayThree(a, b);
    OneOfTwoGoes(a, b, Replay(counted).Keys, Replay(log).Keys);
  }

  lemma OneOfTwoGoes(a: Addr, b: Addr, two: set<Addr>, left: set<Addr>)
    requires a != b && two == {a, b} && |two - left| == 1
    ensures (a in left) != (b in left)
  {
    assert two - left == (if a in left then {} else {a}) + (if b in left then {} else {b});
  }
}
