/** What the route cache should hold, said of the history of stores and evictions alone
    (route.go:186-289, types.go:40-46). */
module RouteCache {
  import opened Common
  import opened RouteRace

  type Addr = string
  type Time = int  // Unix seconds

  const ROUTE_TTL := 30 * 60

  datatype Event =
    | Stored(addr: Addr, at: Time, outcome: Outcome)
    | Expired(addr: Addr, at: Time)  // deleted by the first phase of a cleanup
    | OverLimit(addr: Addr)          // deleted by its second phase

  datatype Outcome = Worked(via: Method) | Failed

  datatype Info = Info(via: Method, lastActive: Time, failed: bool)

  type History = seq<Event>

  // ---- one event after the other ----

  /** The zero value of a method is SSH. */
  function ViaOf(cache: map<Addr, Info>, a: Addr): Method {
    if a in cache then cache[a].via else SSH
  }

  function Apply(cache: map<Addr, Info>, e: Event): map<Addr, Info> {
    match e
    case Stored(a, at, Worked(via)) => cache[a := Info(via, at, false)]
    case Stored(a, at, Failed) => cache[a := Info(ViaOf(cache, a), at, true)]
    case Expired(a, _) => cache - {a}
    case OverLimit(a) => cache - {a}
  }

  function Replay(log: History): map<Addr, Info> {
    if log == [] then map[] else Apply(Replay(log[..|log| - 1]), log[|log| - 1])
  }

  lemma ReplayOne(log: History, e: Event)
    ensures Replay(log + [e]) == Apply(Replay(log), e)
  {
    assert (log + [e])[..|log|] == log;
  }

  // ---- the same, looking back ----

  ghost predicate IsLast(log: History, a: Addr, i: int) {
    && 0 <= i < |log| && log[i].addr == a
    && forall j :: i < j < |log| ==> log[j].addr != a
  }

  /** Its last success, with nothing but failures of the same target since. */
  ghost predicate IsLastSuccess(log: History, a: Addr, i: int) {
    && 0 <= i < |log| && log[i].addr == a && log[i].Stored? && log[i].outcome.Worked?
    && forall j :: i < j < |log| && log[j].addr == a ==> log[j].Stored? && log[j].outcome.Failed?
  }

  /** `info` is what the history since the last eviction of `a` says of it. */
  ghost predicate Agrees(log: History, a: Addr, info: Info) {
    && (exists i :: IsLast(log, a, i) && log[i].Stored?
                    && info.lastActive == log[i].at && (info.failed <==> log[i].outcome.Failed?))
    && (forall i :: IsLastSuccess(log, a, i) ==> info.via == log[i].outcome.via)
    && ((forall i :: !IsLastSuccess(log, a, i)) ==> info.via == SSH)
  }

  /** A target is in the cache exactly when its last event is a store, and its record agrees
      with its history. */
  lemma {:induction false} ReplayMeans(log: History, a: Addr)
    ensures a in Replay(log) <==> exists i :: IsLast(log, a, i) && log[i].Stored?
    ensures a in Replay(log) ==> Agrees(log, a, Replay(log)[a])
  {
    if log != [] {
      var init, e := log[..|log| - 1], log[|log| - 1];
      assert log == init + [e];
      ReplayMeans(init, a);
      if e.addr == a {
        LastIsNow(init, a, e);
      } else {
        LastIsEarlier(init, a, e);
      }
    }
  }

  lemma LastIsNow(log: History, a: Addr, e: Event)
    requires e.addr == a
    requires a in Replay(log) <==> exists i :: IsLast(log, a, i) && log[i].Stored?
    requires a in Replay(log) ==> Agrees(log, a, Replay(log)[a])
    ensures IsLast(log + [e], a, |log|)
    ensures a in Replay(log + [e]) <==> exists i :: IsLast(log + [e], a, i) && (log + [e])[i].Stored?
    ensures a in Replay(log + [e]) ==> Agrees(log + [e], a, Replay(log + [e])[a])
  {
    var after := log + [e];
    ReplayOne(log, e);
    assert IsLast(after, a, |log|);
    if e.Stored? {
      if e.outcome.Worked? {
        assert IsLastSuccess(after, a, |log|);
        forall i | IsLastSuccess(after, a, i) ensures i == |log| {
          assert after[|log|].outcome.Worked?;
        }
      } else {
        FailureKeepsLastSuccess(log, a, e);
      }
    } else {
      forall i | IsLast(after, a, i) ensures i == |log| {
      }
    }
  }

  lemma FailureKeepsLastSuccess(log: History, a: Addr, e: Event)
    requires e.addr == a && e.Stored? && e.outcome.Failed?
    requires a in Replay(log) <==> exists i :: IsLast(log, a, i) && log[i].Stored?
    requires a in Replay(log) ==> Agrees(log, a, Replay(log)[a])
    ensures Agrees(log + [e], a, Info(ViaOf(Replay(log), a), e.at, true))
  {
    var after := log + [e];
    assert IsLast(after, a, |log|);
    forall i | IsLastSuccess(after, a, i) ensures a in Replay(log) && IsLastSuccess(log, a, i) {
      assert after[i] == log[i];
      assert forall j :: i < j < |log| ==> after[j] == log[j];
      assert IsLastSuccess(log, a, i);
      LastAfter(log, a, i);
    }
    if i :| IsLastSuccess(log, a, i) {
      assert IsLastSuccess(after, a, i);
    }
  }

  /** An address with an event has a last one. */
  lemma {:induction false} LastAfter(log: History, a: Addr, i: nat)
    requires i < |log| && log[i].addr == a && log[i].Stored?
    requires forall j :: i < j < |log| && log[j].addr == a ==> log[j].Stored?
    ensures exists k :: IsLast(log, a, k) && log[k].Stored?
    decreases |log| - i
  {
    if j :| i < j < |log| && log[j].addr == a {
      LastAfter(log, a, j);
    } else {
      assert IsLast(log, a, i);
    }
  }

  lemma LastIsEarlier(log: History, a: Addr, e: Event)
    requires e.addr != a
    requires a in Replay(log) <==> exists i :: IsLast(log, a, i) && log[i].Stored?
    requires a in Replay(log) ==> Agrees(log, a, Replay(log)[a])
    ensures a in Replay(log + [e]) <==> exists i :: IsLast(log + [e], a, i) && (log + [e])[i].Stored?
    ensures a in Replay(log + [e]) ==> Agrees(log + [e], a, Replay(log + [e])[a])
  {
    ReplayOne(log, e);
    forall i ensures IsLast(log + [e], a, i) <==> IsLast(log, a, i) {
      LastStays(log, a, e, i);
    }
    if a in Replay(log) {
      AgreesStays(log, a, e, Replay(log)[a]);
    }
  }

  lemma LastStays(log: History, a: Addr, e: Event, i: int)
    requires e.addr != a
    ensures IsLast(log + [e], a, i) <==> IsLast(log, a, i)
  {
    var after := log + [e];
    assert forall j :: 0 <= j < |log| ==> after[j] == log[j];
  }

  lemma LastSuccessStays(log: History, a: Addr, e: Event, i: int)
    requires e.addr != a
    ensures IsLastSuccess(log + [e], a, i) <==> IsLastSuccess(log, a, i)
  {
    var after := log + [e];
    assert forall j :: 0 <= j < |log| ==> after[j] == log[j];
  }

  lemma AgreesStays(log: History, a: Addr, e: Event, info: Info)
    requires e.addr != a && Agrees(log, a, info)
    ensures Agrees(log + [e], a, info)
  {
    var i :| IsLast(log, a, i) && log[i].Stored?
          && info.lastActive == log[i].at && (info.failed <==> log[i].outcome.Failed?);
    LastStays(log, a, e, i);
    forall k ensures IsLastSuccess(log + [e], a, k) <==> IsLastSuccess(log, a, k) {
      LastSuccessStays(log, a, e, k);
    }
  }

  // ---- the negative cache, route.go:35-52 ----

  predicate FastFails(cache: map<Addr, Info>, a: Addr, now: Time) {
    a in cache && cache[a].failed && now - cache[a].lastActive < ROUTE_NEGATIVE_TTL
  }

  /** A target fails fast exactly when the last thing that happened to it was a failure less
      than 30 seconds ago. */
  lemma {:induction false} FastFailsMeans(log: History, a: Addr, now: Time)
    ensures FastFails(Replay(log), a, now)
        <==> exists i ::
               IsLast(log, a, i) && log[i].Stored? && log[i].outcome.Failed? && now - log[i].at < ROUTE_NEGATIVE_TTL
  {
    ReplayMeans(log, a);
    forall i, j | IsLast(log, a, i) && IsLast(log, a, j) ensures i == j {
    }
  }

  // ---- histories the cache can have ----

  predicate Stamped(e: Event) {
    e.Stored? || e.Expired?
  }

  /** Events under the lock carry times in order; an expired entry was expired when it was
      deleted, and whatever was evicted was there. */
  ghost predicate EventOk(log: History, i: nat)
    requires i < |log|
  {
    && (forall h :: 0 <= h < i && Stamped(log[h]) && Stamped(log[i]) ==> log[h].at <= log[i].at)
    && (!log[i].Stored? ==> log[i].addr in Replay(log[..i]))
    && (log[i].Expired? ==>
          && log[i].addr in Replay(log[..i])
          && log[i].at - Replay(log[..i])[log[i].addr].lastActive > ROUTE_TTL)
  }

  ghost predicate Lawful(log: History, now: Time) {
    && (forall i :: 0 <= i < |log| ==> EventOk(log, i))
    && (forall i :: 0 <= i < |log| && Stamped(log[i]) ==> log[i].at <= now)
  }

  lemma LawfulGrows(log: History, now: Time, e: Event)
    requires Lawful(log, now) && (Stamped(e) ==> e.at == now)
    requires !e.Stored? ==> e.addr in Replay(log)
    requires e.Expired? ==> now - Replay(log)[e.addr].lastActive > ROUTE_TTL
    ensures Lawful(log + [e], now)
  {
    var after := log + [e];
    forall i | 0 <= i < |after| ensures EventOk(after, i) {
      if i < |log| {
        assert EventOk(log, i) && after[..i] == log[..i];
      } else {
        assert after[..i] == log;
      }
    }
  }

  /** Expiry never takes an entry within thirty minutes of a store to it, whatever runs in
      between. */
  lemma ExpiryWaitsThirtyMinutes(log: History, now: Time, i: nat, j: nat)
    requires Lawful(log, now) && i < j < |log|
    requires log[i].Stored? && log[j].Expired? && log[i].addr == log[j].addr
    ensures log[j].at - log[i].at > ROUTE_TTL
  {
    var a, before := log[j].addr, log[..j];
    assert EventOk(log, j);
    ReplayMeans(before, a);
    var k :| IsLast(before, a, k) && before[k].Stored? && Replay(before)[a].lastActive == before[k].at;
    assert before[i] == log[i] && before[k] == log[k] && i <= k;
    assert EventOk(log, k);
  }

  // ---- how much a history can add ----

  predicate Inserts(log: History, i: nat)
    requires i < |log|
  {
    log[i].Stored? && log[i].addr !in Replay(log[..i])
  }

  /** The insertions from position `from` on. */
  ghost function Insertions(log: History, from: nat): set<nat> {
    set i: nat | from <= i < |log| && Inserts(log, i)
  }

  /** What is in the cache was there at `from` or came in by an insertion since, so taking
      `gone` away leaves room for that much. */
  lemma SizeSince(log: History, from: nat, gone: set<Addr>)
    requires from <= |log| && gone <= Replay(log[..from]).Keys && gone !! Replay(log).Keys
    ensures |Replay(log)| + |gone| <= |Replay(log[..from])| + |Insertions(log, from)|
  {
    var before, ins := Replay(log[..from]).Keys, Insertions(log, from);
    var added := Addresses(log, ins);
    KeysSince(log, from);
    AddressesFew(log, ins);
    SubsetSize(Replay(log).Keys, (before - gone) + added);
    UnionSize(before - gone, added);
    assert before == (before - gone) + gone;
  }

  ghost function Addresses(log: History, indices: set<nat>): set<Addr>
    requires forall i :: i in indices ==> i < |log|
  {
    set i | i in indices :: log[i].addr
  }

  lemma {:induction false} AddressesFew(log: History, indices: set<nat>)
    requires forall i :: i in indices ==> i < |log|
    ensures |Addresses(log, indices)| <= |indices|
  {
    if indices != {} {
      var i :| i in indices;
      var rest := indices - {i};
      AddressesFew(log, rest);
      assert Addresses(log, indices) == Addresses(log, rest) + {log[i].addr};
    }
  }

  lemma UnionSize<T>(a: set<T>, b: set<T>)
    ensures |a + b| <= |a| + |b|
  {
    assert a + b == a + (b - a);
    SubsetSize(b - a, b);
  }

  /** What was inserted stays inserted. */
  lemma InsertionsStay(log: History, from: nat)
    requires from < |log|
    ensures Addresses(log[..|log| - 1], Insertions(log[..|log| - 1], from)) <= Addresses(log, Insertions(log, from))
  {
    var init := log[..|log| - 1];
    forall a | a in Addresses(init, Insertions(init, from)) ensures a in Addresses(log, Insertions(log, from)) {
      var i :| i in Insertions(init, from) && init[i].addr == a;
      assert init[..i] == log[..i];
      assert i in Insertions(log, from) && log[i].addr == a;
    }
  }

  lemma {:induction false} KeysSince(log: History, from: nat)
    requires from <= |log|
    ensures Replay(log).Keys <= Replay(log[..from]).Keys + Addresses(log, Insertions(log, from))
    decreases |log|
  {
    if from == |log| {
      assert log[..from] == log;
    } else {
      var n := |log| - 1;
      var init := log[..n];
      KeysSince(init, from);
      assert init[..from] == log[..from];
      InsertionsStay(log, from);
      if log[n].Stored? && log[n].addr !in Replay(init) {
        assert Inserts(log, n) && n in Insertions(log, from);
      }
    }
  }
}
