# A verified model of the proxy's state and protocol logic

The program is a SOCKS5 and HTTP proxy that reaches its targets through a pool of SSH clients or
directly. This project models the parts of it that are hand-written state, concurrency and framing,
and proves what they promise. `dafny verify dfyconfig.toml` checks all of it.

## How it is built

**Goroutines.** The pool, the route race, DNS resolution and admission with shutdown are state
machines: `Pool`, `RouteRace`, `Dns`, `Server`. A state is what the goroutines share and a program
counter for each of an unbounded number of goroutines (three in the race). Each locked section,
channel operation, atomic access and reading of the clock is one step; time passes between steps. A
reachable state is the last of some finite run of `Next` from `Init`, and the theorems are about every
reachable state or every step from one. `PoolOwnership`, `PoolClosing`, `PoolLimits` and
`DnsInvariants` hold the inductive invariants, `PoolTheorems`, `RouteTheorems`, `RouteReasons`,
`DnsTheorems`, `DnsRepeats` and `ServerTheorems` what follows.

**The same as code.** `PoolGoroutines`, `RouteGoroutines`, `DnsGoroutines` and `ServerGoroutines` write
the source's methods as methods of a class with the source's fields. A ghost field `trace` holds the
run so far; `Valid()` says that it is a run and ends in the present state. A method that touches shared
state once extends the trace by that step. Between two such accesses stands `Interfere`, whose contract
lets everybody else take any number of steps. So a contract
`Valid() && old(trace) <= trace && Pc(me) == ...` says that the code follows the state machine step by
step from one place to another, and every theorem applies to what it does. Where those two places are
the same, or a loop may turn or not, the method also returns positions in the trace: where a failed
Get looked at the channel and where it was refused, where selectRoute gave up, where each turn of an accept
loop came back, where Shutdown stood waiting. What the world does for a method is an argument of it: whether
a dial, a keepalive or a listener succeeds, what the resolver says, when a context ends. So a contract can
say what follows from it, and a failure needs its reason. In the race the timeout comes after a number of
steps that is given, or later, and no step of the caller can stand for it. The methods that make one access
state the new value of what they touch and what they return.

**Histories.** The route cache (`RouteCache`, `RouteCacheCleanup`, `RouteCacheGoroutines`), the header
scanner (`HeaderScanner`) and the UDP association (`Udp`, `UdpGoroutines`) keep a ghost history: the
events under the lock, the bytes delivered, the packets judged. `Valid()` ties the fields to the
history, and separate lemmas say what the history means without following the code's recursion.

**Streams.** `Socks5Codec` has the address and datagram formats as functions. `Streams` has sockets that
deliver their bytes in arbitrary pieces and may break at any operation, the buffered reader, with or
without the limit reader of `HeaderScanner` under it, and relay. `Socks5Stream` reads the greeting and the
request from such a stream.

**Handlers.** `Handlers` has the handlers of a client connection. They run
`RouteGoroutines.RouteSelection.SelectRoute` for each route and keep a log of all they do. The log is
ghost: each event is appended by the one method that does what it stands for, next to the call or the
write, so the contracts of those methods (`SelectRoute`, `CloseRouteResult`, `Answer`, `SendRequest` and
the like) are where the log meets the code. For each way a request can go, a *course*, `SessionLog` has
the events in order, the text the client gets, what the target gets, and the condition on both streams
under which it is taken, so that every failure has its reason: bytes that are missing or malformed, the
limit reader, or a broken connection. The HTTP library and the wording of replies are arbitrary functions
of the bytes, except that a request head ends with the first empty line. The contracts say that there is a
course that fits and that log and bytes are exactly those of the course; `SessionTheorems` and
`RouteLease` say what that means for whole sessions, `ReplyTheorems` which answer a request gets and when the
connection goes on, `LimitTheorems` what the limit reader makes of them, and `RouteBalance` adds up the races
and the handlers.

## What turned out false

* *Get returns a client that has not been closed.* `PoolTheorems.GetCanReturnAClosedClient` is a run in
  which it returns a closed one; `PoolTheorems.GetReturnsClosedIffKilled` is the exact condition: a health
  probe had closed it by then. The branch that lets it through is the record of a healthy check less than
  a minute old.
* *The channel of a closed pool ends up empty.* `PoolTheorems.SweeperCanStrandAClient` is a run in which
  it does not; `PoolTheorems.ClosedPoolKeepsAtMostOne` and `PoolTheorems.ClosedAtRestLeaksOnlyTheResent`
  are the exact condition: the last operation on the channel is a re-send by the idle cleanup after the
  close.
* *One DNS lookup per TTL.* There are two ways to a second one, each with a run:
  `DnsRepeats.TwoLookupsWithinOneTtl` and `DnsRepeats.LookedUpAgainAfterEviction`.
  `DnsRepeats.RepeatsReadEarlyOrEvicted` shows that there is no third: the goroutine had read the cache
  before that publication, and then the second lookup always is within its lifetime, or the host was
  evicted in between. `DnsRepeats.SecondLookupReadTooEarly` is the exact condition for a cached entry.
* *The second phase of a cleanup of the route cache evicts the least recently used.*
  `RouteCacheGoroutines.EvictTheNewest` runs into a newer entry evicted while an older one stays;
  `RouteCacheCleanup.NewerGoesIffRefreshed` is the exact condition: it was used again between the count
  and the deletions, later than the other ever was. The first phase goes by age, not by order
  (`RouteCacheGoroutines.RouteTable.RemoveExpired`).
* *The scanner limits the header.* `HeaderScanner.LimitsTheHeaderIff` is the exact condition: at
  beginRequest nothing is read ahead (`reader.Buffered() == 0`), and the header does not end in LF, CR, LF
  without a CR before the first LF. There are three ways it fails. `HeaderScanner.PassOverlong` runs into a
  header over the limit that passes, because its first bytes came with the request before;
  `HeaderScanner.RefuseBody` into a short one refused for the body behind it, because all of it did; and
  `HeaderScanner.MixedEndsOccur` shows that any line can be followed by a mixed end, and a short header
  then refused for the body behind it. `HeaderScanner.CountsBehindTheReadAhead` says for every read-ahead
  what is counted instead.
* *A request is sent on unless its body is missing or a connection breaks.* The limit reader goes on
  counting into the body behind a head whose end it did not see. `LimitTheorems.UnseenIsRefused` shows that
  a long enough body is then always refused, and `LimitTheorems.RefusedIsNotSent` that the target does not
  get it and the client of a plain request hears nothing. `LimitTheorems.NeverRefusedIff` is the exact
  condition under which no body can be refused: the end of the head is not mixed, its line ends were not
  read ahead with the request before, and no old error of the limit reader waits. For whole sessions
  `LimitTheorems.SeenSession` says that the property holds if the ends of all heads are seen, as they are if
  nothing was read ahead and none is mixed (`LimitTheorems.NothingAheadIsSeen`).
* *A rebuilt address equals the one read.* `Socks5Codec.Rebuilds` gives the exact condition: it was an
  IPv4 address, or an IPv6 address that is not IPv4-mapped.

## Model

| member | source | states |
|---|---|---|
| PoolTheorems.ClientsHaveOnePlace | pool.go:98-216 | In every reachable state a client is in one channel slot or one goroutine's hands and never both, the channel is within its size, and a client that is nowhere has been closed |
| PoolTheorems.OnlyTheHolderCloses | pool.go:195-224 | A step closes a client only if the goroutine that takes it holds the client, which then is in no channel slot, or is a health prober whose probe timed out |
| PoolTheorems.InUseStaysOpen | pool.go:195-224 | A client in use is never closed by pool-full release, idle cleanup, closeAll or a drain: a step that closes it is that of a health prober whose probe timed out |
| PoolTheorems.HeldIsShutIffKilled | pool.go:407-418 | A client in somebody's hands is closed exactly when a health probe closed it |
| PoolTheorems.NonEmptyMeansSomebodyDrains | pool.go:196-211 | In a closed pool with a non-empty channel some goroutine past its send, or draining, will still empty it, unless the last operation is a re-send by the cleanup |
| PoolTheorems.ClosedPoolKeepsAtMostOne | pool.go:297-363 | With nobody left to drain, at most one client remains, in the channel or in the cleanup's hands, and it is in the channel exactly when the cleanup re-sent it after the close |
| PoolTheorems.ClosedAtRestLeaksOnlyTheResent | pool.go:297-363 | When a closed pool is at rest, every client ever created is closed, except exactly one re-sent after the close and not since killed by a probe |
| PoolTheorems.SweeperCanStrandAClient | pool.go:351-356 | A reachable closed pool at rest with an open client in its channel |
| PoolTheorems.GetReturnsClosedIffKilled | pool.go:109-147 | At the step with which Get returns a client, the client is closed exactly when a health probe that timed out has closed it; one passed without a keepalive has a healthy record less than a minute old |
| PoolTheorems.GetCanReturnAClosedClient | pool.go:109-123 | A reachable state from which Get takes a closed client off the channel and returns it |
| PoolTheorems.SemaphoresHold | pool.go:235-405 | Dial slots and probe slots in use equal the goroutines that hold one, never exceed 10 and 8, and giving one back never blocks |
| PoolTheorems.DoneIsClosedOnce | pool.go:297-301 | However many closeAll calls run, at most one is about to close the done channel and it is still open then |
| PoolTheorems.SweepDecidesByAge | pool.go:340-357 | Absent a probe timeout the cleanup finds every client it receives on record, closes it when unused for more than an hour and re-sends it otherwise |
| PoolTheorems.CloseShrinks | pool.go:304-313 | A close in a closed pool lowers the number of clients in play, the measure by which draining ends |
| PoolTheorems.ClosedRunsShrink | pool.go:297-314 | Along any run a closed pool stays closed and the clients in play never increase |
| PoolClosing.LastToLeave | pool.go:196-211 | When after a step nobody is bound to look at a closed pool's channel any more, either nobody was before or the one that stopped left it empty |
| PoolOwnership.TransferKeeps | pool.go:98-224 | However a step moves a client between the channel, a goroutine's hands and the closed, every client stays in one place, none is lost and a closed one is nowhere |
| PoolLimits.ClosedOnlyShrinks | pool.go:230-314 | In a closed pool no step increases the clients in the channel, in hands or past the last check before a dial, and each Close lowers them |
| PoolGoroutines.SshConnectionPool.Get | pool.go:98-148 | Touches nothing if the context has ended. Else it looks at the channel at a given place of the run and takes its head; it comes back with that head, or with a client made since, and then the head, if there was one, was found not to answer and forgotten; it fails only where the pool was closed, the context ended in the queue, or the dial failed or outlived the context |
| PoolGoroutines.SshConnectionPool.TryReceive | pool.go:104-147 | Takes the first client of the channel, or goes on to dial if there is none |
| PoolGoroutines.SshConnectionPool.MarkUsed | pool.go:109-123 | Stamps the client and accepts it only on a healthy check less than a minute old |
| PoolGoroutines.SshConnectionPool.Put | pool.go:171-216 | Follows the steps of Put under interference, from the first look at closed to the drain, and ends |
| PoolGoroutines.SshConnectionPool.PutRecords | pool.go:182-192 | Stamps the client and records it as healthy if it has no record |
| PoolGoroutines.SshConnectionPool.TrySend | pool.go:195-215 | Appends the client to the channel exactly when there is room |
| PoolGoroutines.SshConnectionPool.Drain | pool.go:201-210 | Empties a closed pool's channel whatever others do in between, and terminates |
| PoolGoroutines.SshConnectionPool.Forget | pool.go:219-225 | Removes both records and closes the client, in two steps |
| PoolGoroutines.SshConnectionPool.CreateConnection | pool.go:230-292 | Follows createConnection: nothing dialled once closed, a slot taken and given back, a new client on record before it is returned; a failure has its place in the run and its reason: the pool closed, the context ended, or no connection to be had |
| PoolGoroutines.SshConnectionPool.CloseAll | pool.go:297-314 | Leaves the pool closed; the first call signals done and drains, a later one takes no step at all |
| PoolGoroutines.SshConnectionPool.PrewarmOne | pool.go:79-91 | Dials without looking at the channel and puts the new client back, or gives up where the pool was closed, the context ended or the dial failed |
| PoolGoroutines.SshConnectionPool.CleanupIdleConnectionsOnce | pool.go:335-363 | Follows one cleanup pass over as many clients as were idle at its start |
| PoolGoroutines.SshConnectionPool.SweepTryResend | pool.go:351-356 | Re-sends without looking at closed, or goes on to forget the client when the channel is full |
| PoolGoroutines.SshConnectionPool.ProbeHealth | pool.go:403-432 | Follows one health probe, whose outcome has its place in the run: a timeout forgets the client, any other marks it if it is on record, as healthy exactly when it answers and is not closed |
| RouteTheorems.EndedHandsOverOrReleases | route.go:27-162 | When caller and probers have ended, each client got from the pool is in the result or was put back once, each dialled connection is in the result or was closed once |
| RouteTheorems.ReturnedRouteIsWellFormed | route.go:67-88 | A returned route has method SSH exactly when it carries a client, or is no route at all |
| RouteTheorems.CallStoresItsOutcome | route.go:49-160 | One cache entry is written per call, the method of the returned route or a failure; the negative cache writes none and touches no client or connection |
| RouteTheorems.FailureNoticesFit | route.go:31-32 | A failure notice always finds room in its channel |
| RouteTheorems.SecondFailureMeansBothEnded | route.go:142-148 | When the second failure is counted both probers have ended and hold nothing |
| RouteTheorems.NoDeadlock | route.go:94-161 | Until all three goroutines have ended one of them can move without waiting for the timeout |
| RouteTheorems.EveryStepLowersRank | route.go:94-161 | Every step of every execution brings the end nearer |
| RouteTheorems.RunsAreShort | route.go:27-162 | No execution has more than 23 steps, so no prober is ever stranded |
| RouteTheorems.FastFailTouchesNothing | route.go:49-52 | On a fast failure no prober starts and nothing is got or dialled |
| RouteReasons.NoRouteMeans | route.go:93-161 | In any run, no route, the negative cache aside, means that both probers have ended without ever having a route to offer, or that the timeout came first |
| RouteReasons.ResultWasOffered | route.go:93-161 | In any run whatever is returned was held out by a prober or came by the cached path |
| RouteReasons.EndsEarlyByTimeout | route.go:28-161 | In any run a context that has ended before the caller decided was ended by the timeout |
| RouteGoroutines.RouteSelection.SelectRoute | route.go:27-162 | Returns a route that was offered, by a prober or the cached path. The negative cache aside, it returns none only if neither prober ever had one to offer or the timeout came, and gave up on the second failure notice or after a last look that saw no sender; a cached path that can serve the target does, unless the timeout came; the outcome is stored and the context ended |
| RouteGoroutines.RouteSelection.TryCached | route.go:49-91 | The negative cache answers at once; the cached method gives the result if the pool, the dial or an address answers, and fails only if not or if the timeout came |
| RouteGoroutines.RouteSelection.Await | route.go:135-161 | The select loop under any order of results, failures and timeout; without a result it gave up at a given place of the run, on the second failure notice or after the last look |
| RouteGoroutines.RouteSelection.TimedOut | route.go:149-160 | The last look after the timeout takes the result of a sender that has arrived, and gives up only if there is none |
| RouteGoroutines.RouteSelection.ProbeSsh | route.go:94-117 | The SSH prober ends holding nothing, in every interleaving, and comes to an offer of what it got through the client it was given, or to a failure for want of a client, of a connection, or of time |
| RouteGoroutines.RouteSelection.ProbeDirect | route.go:119-132 | The direct prober ends holding nothing, in every interleaving, and comes to an offer if some address answers, or to a failure if none did before the context ended |
| RouteGoroutines.RouteSelection.DialDirect | route.go:167-184 | Tries the addresses in turn until one answers or the context ends, and fails only if none answered before that |
| DnsTheorems.OneLeaderPerHost | proxy.go:364-380 | A host is in the flight map exactly when one goroutine leads for it, and the flight there is that leader's |
| DnsTheorems.LeaderDeletesItsOwn | proxy.go:428-430 | An entry leaves the flight map only by its own leader, which removes nothing else |
| DnsTheorems.WaitersAreServed | proxy.go:351-377 | The flight a waiter waits for is done, or its leader is at work and can take its next step |
| DnsTheorems.FlightAnswersAgree | proxy.go:353-376 | All who return from one flight return the addresses its leader found for that host |
| DnsTheorems.FlightsLoseNothing | proxy.go:385-431 | In every reachable state what a flight answers with is all that the resolver told its leader, so ordered |
| DnsTheorems.FinishedFlightsAreFinal | proxy.go:428-431 | What a finished flight found never changes |
| DnsTheorems.OverwriteNeverLowersExpiry | proxy.go:394-426 | No step lowers the expiry of an entry that stays |
| DnsTheorems.PublishedInLookupOrder | proxy.go:394-426 | Leaders of one host publish in the order their lookups ended |
| DnsTheorems.LatestMeans | proxy.go:399-426 | What the log says an entry should be is the last non-empty lookup since the last eviction |
| DnsTheorems.CacheIsTheLatestLookup | proxy.go:399-426 | Each entry is the latest non-empty lookup of its host since it was last evicted, with its expiry; a host without one was evicted after each of its own |
| DnsTheorems.CacheLosesNothing | proxy.go:385-427 | In every reachable state what the cache holds for a host is all that the resolver said in the latest non-empty lookup since the host was last evicted, so ordered |
| DnsTheorems.CacheIsBounded | proxy.go:399-427 | The cache never exceeds its cap, has no entry for the empty host, and lists IPv4 first |
| DnsTheorems.FoundIsStored | proxy.go:399-427 | A non-empty lookup is always stored, and others are evicted only for a new host in a full cache: the expired, or else one of earliest expiry |
| DnsRepeats.RepeatsReadEarlyOrEvicted | proxy.go:340-380 | A lookup that begins within the lifetime of an earlier publication of its host is by a goroutine that read the cache before that publication, or the host was evicted in between; and after such an early read it always is within that lifetime |
| DnsRepeats.SecondLookupReadTooEarly | proxy.go:340-380 | A lookup begins beside an entry that was fresh when the goroutine read the clock exactly when the host was published after the goroutine read the cache |
| DnsRepeats.LookHits | proxy.go:343-348 | A look at the cache hits exactly when some publication of the host is fresh and the host was neither published nor evicted since |
| DnsRepeats.TwoLookupsWithinOneTtl | proxy.go:364-379 | A reachable state with a second lookup in progress while an unexpired entry is cached |
| DnsRepeats.LookedUpAgainAfterEviction | proxy.go:407-418 | A run in which a full cache evicts a host and a goroutine that reads the cache after that looks it up again within the lifetime of the first answer |
| Dns.Ipv4FirstSorts | proxy.go:388-393 | The sorted answer has the IPv4 addresses first and is a permutation |
| Dns.StableSortIsUnique | proxy.go:388-393 | Any stable IPv4-first order is that answer |
| Dns.Ipv4FirstPlaces | proxy.go:388-393 | Every address found stands in the answer once, IPv4 first, and both kinds in the order found |
| DnsInvariants.StoresDropsOnlyTheOldest | proxy.go:401-419 | What a store evicts is expired, or is one entry of minimal expiry and nothing was expired |
| DnsGoroutines.Resolver.ResolveAll | proxy.go:329-437 | Follows resolveAll under interference. What is no name comes back as it is. A name is answered from the cache; or from a flight that is done, with all that was found for it, which if this goroutine leads it is what the resolver said; or, when its context has ended, as given; each address with the port, in order |
| DnsGoroutines.Resolver.Look | proxy.go:343-352 | One look under the read lock: an unexpired entry, a flight, or neither |
| DnsGoroutines.Resolver.WaitFor | proxy.go:367-376 | Returns the flight's addresses when it is done, or the target as given once the context has ended |
| DnsGoroutines.Resolver.TryRegister | proxy.go:364-380 | Leads exactly when no flight for the host is there |
| DnsGoroutines.Resolver.PublishResult | proxy.go:399-430 | Stores the result within the cap, keeps what need not go and removes its flight |
| DnsGoroutines.Resolver.DropExpired | proxy.go:402-406 | The loop that deletes exactly the expired entries |
| DnsGoroutines.Resolver.DropOldest | proxy.go:407-418 | The loop with the empty sentinel finds and deletes an entry of minimal expiry |
| DnsGoroutines.Resolver.CloseFlight | proxy.go:431-436 | Marks the flight done for good and answers with what it found |
| DnsGoroutines.Resolver.JoinAll | proxy.go:449-455 | Each address with the port, in order |
| ServerTheorems.LimiterConserves | proxy.go:158-172 | Tokens in the limiter equal connections admitted and not yet released and never exceed the maximum; releasing never blocks |
| ServerTheorems.AddNeverFollowsWait | proxy.go:206-241 | In no run does activeConn grow once the wait for it has begun |
| ServerTheorems.WaitGroupsCount | proxy.go:70-76 | Both wait groups count the goroutines alive, and no accept loop is alive once the wait for connections has begun |
| ServerTheorems.AcceptLoopsEnd | proxy.go:124-129 | Whoever waits for the accept loops waits for goroutines that can move, and every move of one brings its end nearer |
| ServerTheorems.ReleasedExactlyOnce | proxy.go:167-171 | An admitted connection has released exactly once when its handler returns, however often established was called; a rejected one never does |
| ServerTheorems.StoppedOnce | proxy.go:109-148 | However often Shutdown and cleanupStartFailure run, stopCh and the pool are closed at most once |
| ServerGoroutines.ProxyServer.Start | proxy.go:57-93 | Opens the listeners in turn and succeeds exactly if all can be opened, counting each accept loop before it starts; after the first that fails stopCh and the listeners are closed, and the pool too unless an accept loop is still alive |
| ServerGoroutines.ProxyServer.Shutdown | proxy.go:120-148 | Closes stopCh and the listeners and stands waiting for the accept loops at a given place of the run; unless the grace period expires it goes on only where no connection was left; it is over with the pool closed, and not over only while an accept loop or a connection is alive |
| ServerGoroutines.ProxyServer.AcceptLoop | proxy.go:210-243 | Every turn comes back from Accept at a given place of the run, with every connection that arrives while the listeners are open; each is counted before its handler starts, and the loop ends before its turns are up only when listeners are closed or the context has ended |
| ServerGoroutines.ProxyServer.Accept | proxy.go:213-234 | Takes a connection that arrives unless the listeners are closed, leaves the loop only when they are or the context has ended, and backs off on any other error |
| ServerGoroutines.ProxyServer.LeaveLoop | proxy.go:71-75 | The deferred Done never takes acceptWG below zero |
| ServerGoroutines.ProxyServer.ServeConn | proxy.go:158-172 | Any number of calls of established gives back exactly the token taken |
| ServerGoroutines.ProxyServer.Enter | proxy.go:161-166 | A token is taken exactly when there is room; a connection is rejected only when the limiter is full |
| ServerGoroutines.ProxyServer.Established | proxy.go:167-169 | The first call gives back the token and every later one nothing |
| ServerGoroutines.ProxyServer.Done | proxy.go:238-241 | The deferred Done never takes activeConn below zero |
| ServerGoroutines.ProxyServer.Stop | proxy.go:109-148 | stopCh, listeners, accept loops, connections, pool, in that order and under interference, for Shutdown and cleanupStartFailure alike |
| ServerGoroutines.ProxyServer.AwaitConnections | proxy.go:133-136 | Begins the wait and ends it when no connection is left, or still stands waiting while there are some |
| RouteCache.ReplayMeans | route.go:186-213 | A target is cached exactly when its last event is a store; its time is that event's, it is failed exactly when that was a failure, its method that of the last success since the last eviction, SSH if none |
| RouteCache.FastFailsMeans | route.go:49-52 | Fast failure holds exactly when the last event of the target is a failure less than 30 seconds old |
| RouteCache.ExpiryWaitsThirtyMinutes | route.go:243-254 | In any history an entry expires more than thirty minutes after every store to it |
| RouteCache.SizeSince | route.go:260-283 | The cache holds at most what it held at a moment, less what has gone since, plus the insertions since |
| RouteCacheGoroutines.RouteTable.Lookup | route.go:35-52 | What is copied under the lock agrees with the history then, and the fast failure is decided by it and the later clock |
| RouteCacheGoroutines.RouteTable.StoreRouteSuccess | route.go:187-198 | Writes in place: method, time now, not failed, no other record touched |
| RouteCacheGoroutines.RouteTable.StoreRouteFailure | route.go:201-213 | Writes in place: time now, failed, the method kept, no other record touched |
| RouteCacheGoroutines.RouteTable.RecordOf | route.go:189-193 | Finds the record or makes a zero one; no two targets ever share a record |
| RouteCacheGoroutines.RouteTable.CollectExpired | route.go:235-241 | Exactly the targets unused for more than thirty minutes |
| RouteCacheGoroutines.RouteTable.RemoveExpired | route.go:244-254 | Deletes of those collected exactly those still too old now |
| RouteCacheGoroutines.RouteTable.CopyEntries | route.go:263-271 | Each record once, with its time |
| RouteCacheGoroutines.RouteTable.RemoveOldest | route.go:279-283 | Deletes exactly the first entries given, those already gone excepted, and notes each as a capacity eviction |
| RouteCacheGoroutines.RouteTable.RemoveStale | route.go:231-258 | The first phase; with nothing stored meanwhile it leaves exactly the entries not too old |
| RouteCacheGoroutines.RouteTable.RemoveExcess | route.go:260-289 | The second phase; evicts exactly the excess at the count, oldest first by the times copied, a newer one than what stays only if it was refreshed since, and ends within the limit plus insertions since |
| RouteCacheGoroutines.RouteTable.CleanupRouteCache | route.go:231-289 | Both phases under stores by others: what the second evicts is judged by the history at the count and the refreshes since; with no stores, no entry is older than thirty minutes, the size is within the limit and no young entry newer than a kept one is evicted |
| RouteCacheGoroutines.SortSlice | route.go:273-275 | Some permutation in the order of the times |
| RouteCacheCleanup.ExcessIsOldest | route.go:277-283 | Deleting the first sorted copies evicts exactly the excess and nothing copied as newer than what stays |
| RouteCacheCleanup.NewerGoesIffRefreshed | route.go:260-283 | One entry goes while an older one stays exactly when the one that goes was used between the count and the deletions, later than the other ever was |
| RouteCacheGoroutines.EvictTheNewest | route.go:260-283 | Runs the second phase on two entries, one used again in between, and evicts the newer |
| HeaderScanner.DecisionsStay | http.go:58-92 | Complete and oversize are final under more bytes and exclude each other |
| HeaderScanner.JudgeMeans | http.go:58-92 | The byte-by-byte verdict is done exactly when the first end lies within the limit, and too large exactly when none does and there are more bytes than the limit |
| HeaderScanner.JudgementStays | http.go:60-62 | A verdict once reached is the same for any continuation |
| HeaderScanner.SeesAllButMixedEnds | http.go:81-89 | The scanner sees an end at a byte exactly when an empty line ends there by the rules of net/http and its line ends are not the mixed LF CR LF |
| HeaderScanner.SeenIff | http.go:50-92 | Behind bytes read ahead, the scanner sees the end of a header exactly when it is not mixed and its line ends lie wholly behind them |
| HeaderScanner.CountsBehindTheReadAhead | http.go:50-92 | Of a header whose end it sees it counts what lies behind the bytes read ahead; otherwise also whatever follows, to the next end or the limit |
| HeaderScanner.LimitsTheHeaderIff | http.go:50-92 | For every continuation and every limit the verdict is the one that the length of the header calls for, exactly when nothing was read ahead and the header does not end in a mixed end |
| HeaderScanner.PassOverlong | http.go:50-92 | A run of Read, beginRequest, Read: the first bytes of a header come with the request before, and a header over the limit is counted as done |
| HeaderScanner.RefuseBody | http.go:50-92 | A run of Read, beginRequest, Read: the whole header comes with the request before, and the body behind it is refused |
| HeaderScanner.MixedEndsOccur | http.go:81-89 | Any line can be followed by a mixed end, and then a header within the limit is refused for the body behind it |
| HeaderScanner.HeaderLimitReader.BeginRequest | http.go:50-56 | Forgets all delivered bytes |
| HeaderScanner.HeaderLimitReader.Read | http.go:58-92 | However the stream is cut, done, tooLarge and remaining say of all delivered bytes what they should, every byte is passed on, and the error is the limit's exactly when it is exceeded |
| HeaderScanner.HeaderLimitReader.Scan | http.go:65-89 | One byte through the window in place keeps the state true to the bytes seen |
| Socks5Codec.AddrRoundTrip | socks5.go:259-340 | What was built is read back from any stream that begins with it: the canonical address, the port mod 65536 and exactly its length; only slices of neither 4 nor 16 bytes cannot be built |
| Socks5Codec.ReadAddrExtends | socks5.go:261-298 | A decision other than too short is unchanged by appended bytes |
| Socks5Codec.ReadAddrFrames | socks5.go:261-298 | The consumed bytes alone read the same, and any fewer are too short |
| Socks5Codec.ReadAddrBytes | socks5.go:261-298 | Byte for byte: type 1, 3 or 4, the address of 4 or 16 bytes or the domain behind its length, and the port with its high byte first; consumed is their length |
| Socks5Codec.BuildAddrBytes | socks5.go:323-340 | Byte for byte: type 1 or 4, the address, zeros for nil, and the low sixteen bits of the port with the high byte first |
| Socks5Codec.Rebuilds | socks5.go:266-334 | Building what was read gives the same bytes exactly for IPv4 addresses and IPv6 addresses that are not IPv4-mapped |
| Socks5Codec.SameHost | socks5.go:271-279 | Two addresses are told apart exactly when their sixteen-byte forms differ |
| Socks5Codec.EncodingsArePrefixFree | socks5.go:323-340 | No endpoint's encoding begins with that of a different one |
| Socks5Codec.UdpRoundTrip | udp.go:373-392 | A reply built for the client reads back as its source and payload; a nil address is refused |
| Socks5Codec.BuildUdpBytes | udp.go:373-392 | Byte for byte: three zeros, type 1 or 4, the address, the port with its high byte first, and the payload |
| Socks5Codec.UdpIsExact | udp.go:355-370 | A datagram is accepted exactly when it is not a fragment and an address can be read, and is then header, address and payload |
| Socks5Stream.RequestFrames | socks5.go:202-257 | A request is decided by its own bytes, no fewer and no more |
| Socks5Stream.RequestBytes | socks5.go:202-257 | Byte for byte: version 5, the command, and the address and port with its high byte first |
| Socks5Stream.ReplyIsWellFormed | socks5.go:301-320 | A reply carries its code and reads as the zero address with nothing left over |
| Socks5Stream.ReplyBytes | socks5.go:301-320 | A reply is 5, its code, 0, 1 and six zeros |
| Socks5Stream.RefusedRequest | socks5.go:202-257 | What is no request gets no reply, an address type that is none reply 8, an address cut off reply 1 |
| Socks5Stream.Handshake | socks5.go:165-198 | Over any cutting it takes exactly the greeting, succeeds exactly when one offering no authentication is there and nothing breaks, and answers accordingly |
| Socks5Stream.ReadRaw | socks5.go:216-247 | Collects exactly one whole address, or the reply that says why not |
| Socks5Stream.ReadRequest | socks5.go:202-257 | Reading piece by piece agrees with parsing the stream, takes exactly the request, and its own parse never fails |
| Streams.BufReader.ReadFull | socks5.go:165-185 | Exactly n bytes of the stream in order, or the stream ends or breaks first |
| Streams.BufReader.Read | http.go:131-135 | Over the limit reader: the next bytes of the stream; it fails only when the connection broke or ended or the limit reader refused, and an error that came with bytes comes after them, once |
| Streams.BufReader.ReadBody | http.go:307-313 | Exactly n bytes of the stream in order; it fails only for missing bytes, a broken connection or a refusal that the stream allows, and always when the limit lies more than one buffer before their end |
| Streams.BufReader.ReadHead | http.go:131-137 | Exactly n bytes of the stream in order; it fails only for missing bytes, a broken connection, an error that waited before, or the limit passed |
| Streams.BufReader.DrainBuffered | http.go:168-178 | Takes out exactly what was read ahead and nothing from the connection |
| Streams.Relay | proxy.go:306-312 | Everything that comes in goes out in order, a prefix if something breaks, and the end is passed on |
| Handlers.Session.HandleConnect | socks5.go:114-160 | Refuses exactly when selectRoute returns no route; else the target gets exactly what the client sends after its request, first what was read ahead, the client the success reply and all that the target sends; route asked for, tunnel, close and put back are the only events, in that order |
| Handlers.Session.HandleUDPAssociate | udp.go:57-157 | The first thing that is missing decides, and has its reply; place and sockets taken are given back on every path, the last first; with nothing missing the association is announced with the address of the relay, unless that cannot be written down or the connection broke |
| Handlers.Session.HandleConnection | socks5.go:67-110 | For every stream and every cutting the bytes decide the outcome: a tunnel or a UDP association if and only if asked for, else the refusal the bytes call for, unless the connection breaks; both sides get exactly what that outcome says and every route is settled |
| Handlers.RefusalMeans | socks5.go:63-110 | Byte for byte what a client is told that is turned away: 255 without an acceptable method, reply 8, 1 or 7 by its request, or nothing |
| Handlers.Session.SelectRoute | route.go:27-162 | One request for a route, noted with its result, which some execution of the race returns; the route is well formed |
| Handlers.Session.CloseRouteResult | http.go:525-532 | Closes the connection and puts the client back, each if it is there, in that order |
| Handlers.Session.HandleHTTPConnect | http.go:188-244 | 400 exactly without a host, 502 exactly without a route; else the early data and the rest reach the target once and in order, the client gets the 200 and all that the target sends, and the route is released on every path |
| Handlers.Session.SwitchProtocols | http.go:447-478 | After a 101 each side gets exactly what the other sends from there on, read-ahead first; the limiter is told exactly when the relays begin |
| Handlers.Session.ServeHTTPUpgrade | http.go:406-479 | 502 only if the body was missing or refused by the limit reader, the target sends no response or a connection broke; a tunnel exactly after a 101, any other response passed on whole; the target gets the request and then exactly the rest of the client's stream; the route released on every exit |
| Handlers.Session.FinalResponse | http.go:318-333 | The first response of the target's stream that is not 1xx, after reading exactly those before it; a failure means that the target broke or sends no response there |
| Handlers.Session.ForwardOnce | http.go:302-363 | The target gets the request with its whole body once; the client gets the final response with its body; no failure without its reason in either stream or in the limit reader; the route is released before the limiter is told; another request may follow exactly when the response was written and neither side closes |
| Handlers.Session.HandleExpectContinue | http.go:483-497 | 100 Continue is answered before the body is read, any other expectation refused with 417 |
| Handlers.Session.ServeOne | http.go:256-365 | The request takes a course that fits both streams and what the limit reader has counted, and the events, the client's text and the target's text are exactly those of the course; going on exactly when the course lets another request follow |
| Handlers.Session.BeginRequest | http.go:50-56 | Counts anew from the bytes not read ahead; an error that waits stays |
| Handlers.Session.ReadHttpRequest | http.go:137-146 | Takes exactly the head the stream begins with; fails only if there is none, a connection broke, an old error waited, or the limit was passed |
| Handlers.Session.SendRequest | http.go:307-313 | Sends the request with its whole body, or fails because the body is not there, the limit reader may refuse it or a connection broke; a body that must be refused is never sent |
| Handlers.Session.NextRequest | http.go:367-383 | Reads the next head where the last body ended, or ends the session with the reply its bytes and the limit reader call for |
| Handlers.Session.HandleHTTPPlain | http.go:250-385 | Over any number of keep-alive requests: each begins where the one before it ended and takes a course that fits, events and text are those of the courses in order, and the loop ends only because the last request closes or failed, or the next head is missing, too large by what is counted of it, behind an error that waited, or a CONNECT |
| Handlers.Session.HandleHTTPProxy | http.go:125-165 | The first head decides between refusal, tunnel and session; a tunnel's target gets exactly what follows the head, and every route is settled when the client is closed |
| SessionTheorems.CourseSettles | http.go:256-365 | A request leaves no route owed, is routed once unless its Expect is refused, its 100 Continue lost or its host missing, and is answered at most once; not at all only on a lost 100 Continue or when a plain request or its response fails |
| SessionTheorems.SessionSettles | http.go:250-385 | However long a session is and however it ends, every route is settled and exactly one was asked for per request that is routed |
| SessionTheorems.AnsweredInTurn | http.go:250-385 | Every request but possibly the last is answered exactly once with its target's response, and at most one answer follows |
| SessionTheorems.FramedMeans | http.go:367-383 | Request i begins exactly where the heads and bodies of the requests before it end in the client's stream, and takes a course that fits what is there |
| ReplyTheorems.GoesOnIff | http.go:338-365 | In a session every request but the last had its response written whole, did not ask to close, and the response was not one ended by its connection; and so did the last exactly when the session does not stop with it |
| ReplyTheorems.AnswerMeans | http.go:256-365 | 417 exactly for an expectation that is not 100-continue, 400 exactly without a host, 502 exactly without a route or when an upgrade cannot be sent or gets no response, the tunnel exactly after a 101, else the response of the target; nothing exactly on a lost 100 Continue or when a plain request fails |
| ReplyTheorems.TextMeans | http.go:256-365 | The text for a request is what its events say: 100 and the statuses in their words, and the response of the target, said to close exactly when the request closes or the response is ended by its connection |
| ReplyTheorems.EndingMeans | http.go:367-383 | 431 for a head that is too large and 400 for a CONNECT, in the events and in the text alike, and nothing for any other ending |
| SessionTheorems.ProxiedSettles | http.go:125-165 | Whatever a connection to the HTTP port does, no route is owed at its end |
| LimitTheorems.EndSeenIff | http.go:58-92 | The limit reader sees the end of a head in a session exactly when it is not mixed and its line ends were not read ahead |
| LimitTheorems.HeadsAreLimited | http.go:137-146 | With nothing read ahead and no mixed end a head is refused for its length, and only for that |
| LimitTheorems.NeverRefusedIff | http.go:307-313 | No body behind a head can be refused exactly when its end is not mixed, its line ends were not read ahead and no old error waits, unless the head itself is over the limit |
| LimitTheorems.UnseenIsRefused | http.go:307-313 | Otherwise a body without an empty line that is longer than the read-ahead, the limit and one buffer is always refused, though the head is read |
| LimitTheorems.RefusedIsNotSent | http.go:307-313 | With sound connections a body that must be refused is not sent on: the client of a plain request gets nothing for it, that of an upgrade the 502 |
| LimitTheorems.NothingAheadIsSeen | http.go:367-370 | In a session in which nothing is ever read ahead and no head ends in a mixed end, the ends of all heads are seen |
| LimitTheorems.NoneWaits | http.go:58-92 | In a session all of whose heads are seen no error of the limit reader ever waits, and none of its requests is over the limit |
| LimitTheorems.SeenSession | http.go:250-385 | In such a session every request is sent whole unless its body is missing or a connection breaks, and it ends unread only if no request follows or the connection breaks |
| RouteBalance.EveryClientGoesBack | types.go:55-66 | Over a whole connection and for each of its selections: every client that race got from the pool goes back as often as it was got, put back by the race or by the handler, and every connection it dialled is closed once, by the race or by the handler |
| RouteBalance.HandedOver | types.go:55-66 | At any moment what was handed over by a selection is what the log put back and closed for it and what is still owed |
| RouteLease.SettledMeansReleased | types.go:55-66 | In a settled history every route is closed exactly once and its client put back exactly once after that, before the next selection or the end, and nothing else is touched |
| RouteLease.NothingBeforeTheFirst | types.go:55-66 | Before the first selection nothing is closed or put back |
| Udp.JudgeNext | udp.go:296-317 | Comparing with the bound client judges every packet by the first one from the client's address, and later packets change no verdict |
| Udp.RecordedMeans | udp.go:327-338 | The recorded targets are exactly the first 1024 different destinations |
| Udp.KeysTellApart | udp.go:327-351 | Two endpoints have one key exactly when they have one port and one address, be it written with four bytes or sixteen |
| Udp.SendableMeans | udp.go:224-226 | Sent on is what is no fragment, has one whole address and is not for the domain without a name; the payload is what follows the address |
| UdpGoroutines.UdpAssociation.AcceptClient | udp.go:296-317 | Binds the first source with the client's address for good and accepts exactly packets from that address and port |
| UdpGoroutines.UdpAssociation.RecordTarget | udp.go:327-338 | Adds the destination unless 1024 are there |
| UdpGoroutines.UdpAssociation.AcceptTarget | udp.go:341-351 | Accepts exactly the first 1024 destinations sent to |
| UdpGoroutines.UdpAssociation.ServeClientPacket | udp.go:218-239 | A packet is sent on to where its destination resolves exactly when it comes from the client, is a whole datagram for some host, and the network does its part; that very destination is recorded |
| UdpGoroutines.UdpAssociation.ServeTargetPacket | udp.go:269-289 | A packet is delivered exactly when a client is bound and its source was among the recorded targets, wrapped with its source; it is dropped for want of a client only if nothing had been heard from the address of the client |
| UdpGoroutines.UdpAssociation.ClientToTarget | udp.go:191-241 | Serves every packet its socket brings, in turn and once, read errors passed over, until exactly the first read by which the association is over or the socket closed, and never rebinds the client |
| UdpGoroutines.UdpAssociation.TargetToClient | udp.go:244-291 | Looks at every packet from outside in turn and once, knowing all that was recorded and heard before, and counts exactly those delivered, until exactly the first read by which the association is over or the socket closed |
| UdpGoroutines.UdpAssociation.DeliveredMeans | udp.go:243-351 | Whatever reached the client came from the address and port of one of the first 1024 destinations written to for it, and was looked at after that write; it went to the first speaker from its address, and reads back as its source and payload |
| UdpGoroutines.UdpAssociation.OutgoingMeans | udp.go:190-241 | Whatever was sent on is the payload of a packet from the client's address and first port, to where that packet's destination resolves, and no packet is sent on twice |
| Udp.ForwardedIsAll | udp.go:218-239 | A packet is sent on exactly when it is accepted, names a host that resolves, and can be written |
| Udp.ForwardedInOrder | udp.go:218-239 | Packets are sent on in the order they arrived |

## Left out

- Real time: the clock is an abstract number that never goes back, a context ends at a time or after a number of steps that is given, and nothing is said about latency.
- SSH handshakes, dialling, keepalive requests, resolvers, listeners and sockets are outcomes given from outside: a failed lookup gives no addresses, an empty host fails, a closed client's keepalive does not succeed. Whether a connection breaks is chosen freely at each operation, and contracts say what holds if it does not.
- Memory-model data races: each locked section, channel operation and atomic access is one step.
- Blocking: a method that waits is watched for a number of turns chosen by its caller, or goes on when what it waits for is there; what ends a wait is a theorem about the state machine (NoDeadlock, WaitersAreServed, AcceptLoopsEnd).
- PoolGoroutines.SshConnectionPool.ProbeHealth: one probe is a method; the loop of the health check that starts the probes is only in the state machine (`Pool`).
- PoolGoroutines.SshConnectionPool.Put: a nil client is the number NIL, which no dial ever produces (PoolTheorems.CreatedIsNotNil).
- PoolGoroutines.SshConnectionPool.PrewarmOne: one of the goroutines is a method; that there are as many as the pool is large is not modelled.
- RouteCacheGoroutines.SortSlice: the order of equal times is not specified, as in the library.
- Handlers: what `net/http` makes of a stream and what it writes are arbitrary functions, so header rewriting (hop-by-hop headers, the Connection header, the scheme), chunking and the wording of replies are not modelled. The two relays of a tunnel, which run at the same time on disjoint streams, are run one after the other.
- Handlers.Session.ReadHttpRequest: of the line reader in net/http only this is used, that it takes a head up to its first empty line through the buffer and that a look ahead may swallow an error that waits. The limiter of connections is a separate model (Server).
- Handlers: the log is ghost, so that a selection that is logged was made rests on the contract of Handlers.Session.SelectRoute, which alone appends it; what the cache, the pool and the network do for it is chosen freely there.
- Handlers.Session.HandleUDPAssociate: the association it announces is a separate model (UdpGoroutines), and so is what ends it; whether there is room, an address and a socket is given from outside.
- RouteBalance.EveryClientGoesBack: composes the races and the handlers by their results: the race of a selection is any ended race with that result, and the handlers do not supply it. That the pool lends a client to one goroutine at a time is PoolTheorems.ClientsHaveOnePlace, and pool and races are not composed into one state machine.
- Hosts are raw address bytes or domain bytes: that a domain may spell out an address is not seen, nor are zones of IPv6 addresses.
- Socks5Codec: IP addresses as text, name canonicalisation and `net.IP.String` are represented only by which addresses they tell apart.
- UdpGoroutines.UdpAssociation.ServeClientPacket: what a host resolves to is arbitrary, idle times are not modelled.
- Configuration, the daemon, pid files, profiling, logging and log rotation, and the host key file.
- `removeHopByHopHeaders`, `isUpgradeRequest`, the length of the Accept backoff and the wording of replies, which would add only easy members.
