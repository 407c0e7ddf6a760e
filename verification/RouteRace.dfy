/** The route race of selectRoute (route.go:27-162) as a state machine: the caller, the
    prober that goes through an SSH client, the prober that dials directly, one unbuffered
    result channel, one buffered failure channel and one context. */
module RouteRace {
  import opened Common

  type Client = nat
  type Conn = nat

  datatype Method = SSH | Direct

  /** routeResult, types.go:61-66; nil is None and the zero value has method SSH. */
  datatype RouteResult = RouteResult(conn: Option<Conn>, via: Method, sshClient: Option<Client>)
  const NO_ROUTE := RouteResult(None, SSH, None)

  /** What selectRoute returns when it finds a route. */
  predicate Routable(r: RouteResult) {
    r.conn.Some? && (r.via == SSH <==> r.sshClient.Some?)
  }

  function SshResult(conn: Conn, client: Client): RouteResult {
    RouteResult(Some(conn), SSH, Some(client))
  }

  function DirectResult(conn: Conn): RouteResult {
    RouteResult(Some(conn), Direct, None)
  }

  /** What selectRoute copies out of the route cache; age in seconds. */
  datatype CacheView = CacheView(via: Method, failed: bool, age: int)
  const ROUTE_NEGATIVE_TTL := 30

  predicate FastFail(view: Option<CacheView>) {
    view.Some? && view.value.failed && view.value.age < ROUTE_NEGATIVE_TTL
  }

  /** What is written to the route cache: a success by a method, or a failure. */
  datatype Stored = Success(via: Method) | Failure

  datatype MainPc =
    | Lookup
    | CachedGet
    | CachedDial(client: Client)
    | CachedPut(client: Client)
    | CachedDirect
    | CachedStore(result: RouteResult)
    | SpawnSsh
    | SpawnDirect
    | Waiting(failCount: nat)
    | Cancelling(result: RouteResult)
    | Storing(result: RouteResult)
    | LastLook
    | GivingUp
    | Returning(result: RouteResult)
    | Returned(result: RouteResult)

  datatype SshPc =
    | SshNotStarted
    | SshGet
    | SshDial(client: Client)
    | SshPutBack(client: Client)
    | SshFail
    | SshOffer(conn: Conn, client: Client)
    | SshClose(conn: Conn, client: Client)
    | SshPut(client: Client)
    | SshDone

  datatype DirectPc =
    | DirectNotStarted
    | DirectDial
    | DirectFail
    | DirectOffer(conn: Conn)
    | DirectClose(conn: Conn)
    | DirectDone

  const FAILED_CHAN_CAP: nat := 2

  datatype Shared = Shared(
    view: Option<CacheView>,
    ctxDone: bool,
    failedChan: nat,
    next: Conn,                // the next connection to be dialled
    // history
    gets: multiset<Client>,    // clients obtained from the pool
    puts: multiset<Client>,    // clients returned to it
    dials: multiset<Conn>,     // connections established
    closes: multiset<Conn>,    // connections closed
    stored: seq<Stored>
  ) {
    function Dialled(): Shared {
      this.(next := next + 1, dials := dials + multiset{next})
    }
  }

  datatype State = State(g: Shared, main: MainPc, ssh: SshPc, direct: DirectPc)

  /** The caller up to the race: the cached path, route.go:37-91. */
  ghost predicate CachedStep(g: Shared, pc: MainPc, g': Shared, pc': MainPc) {
    if pc.Lookup? then
      && g' == g
      && pc' == if FastFail(g.view) then Returning(NO_ROUTE)
                else if g.view == None then SpawnSsh
                else if g.view.value.via == SSH then CachedGet else CachedDirect
    else if pc.CachedGet? then
      || (g' == g && pc' == SpawnSsh)
      || (pc'.CachedDial? && g' == g.(gets := g.gets + multiset{pc'.client}))
    else if pc.CachedDial? then
      || (g' == g && pc' == CachedPut(pc.client))
      || (g' == g.Dialled() && pc' == CachedStore(SshResult(g.next, pc.client)))
    else if pc.CachedPut? then
      g' == g.(puts := g.puts + multiset{pc.client}) && pc' == SpawnSsh
    else if pc.CachedDirect? then
      || (g' == g && pc' == SpawnSsh)
      || (g' == g.Dialled() && pc' == CachedStore(DirectResult(g.next)))
    else if pc.CachedStore? then
      g' == g.(stored := g.stored + [Success(pc.result.via)]) && pc' == Returning(pc.result)
    else
      false
  }

  /** The caller waiting for the probers, and leaving, route.go:135-161. */
  ghost predicate WaitStep(g: Shared, pc: MainPc, g': Shared, pc': MainPc) {
    if pc.Waiting? then
      || (g.failedChan > 0 && g' == g.(failedChan := g.failedChan - 1)
          && pc' == if pc.failCount + 1 >= 2 then GivingUp else Waiting(pc.failCount + 1))
      || (g.ctxDone && g' == g && pc' == LastLook)
    else if pc.LastLook? then
      g' == g && pc' == GivingUp
    else if pc.Cancelling? then
      g' == g.(ctxDone := true) && pc' == Storing(pc.result)
    else if pc.Storing? then
      g' == g.(stored := g.stored + [Success(pc.result.via)]) && pc' == Returning(pc.result)
    else if pc.GivingUp? then
      g' == g.(stored := g.stored + [Failure]) && pc' == Returning(NO_ROUTE)
    else if pc.Returning? then
      g' == g.(ctxDone := true) && pc' == Returned(pc.result)  // the deferred cancel
    else
      false
  }

  ghost predicate MainStep(g: Shared, pc: MainPc, g': Shared, pc': MainPc) {
    CachedStep(g, pc, g', pc') || WaitStep(g, pc, g', pc')
  }

  /** The prober through SSH, route.go:94-117. */
  ghost predicate SshStep(g: Shared, pc: SshPc, g': Shared, pc': SshPc) {
    if pc.SshGet? then
      || (g' == g && pc' == SshFail)
      || (pc'.SshDial? && g' == g.(gets := g.gets + multiset{pc'.client}))
    else if pc.SshDial? then
      || (g' == g && pc' == SshPutBack(pc.client))
      || (g' == g.Dialled() && pc' == SshOffer(g.next, pc.client))
    else if pc.SshPutBack? then
      g' == g.(puts := g.puts + multiset{pc.client}) && pc' == SshFail
    else if pc.SshFail? then
      g.failedChan < FAILED_CHAN_CAP && g' == g.(failedChan := g.failedChan + 1) && pc' == SshDone
    else if pc.SshOffer? then
      g.ctxDone && g' == g && pc' == SshClose(pc.conn, pc.client)
    else if pc.SshClose? then
      g' == g.(closes := g.closes + multiset{pc.conn}) && pc' == SshPut(pc.client)
    else if pc.SshPut? then
      g' == g.(puts := g.puts + multiset{pc.client}) && pc' == SshDone
    else
      false
  }

  /** The direct prober, route.go:119-132. */
  ghost predicate DirectStep(g: Shared, pc: DirectPc, g': Shared, pc': DirectPc) {
    if pc.DirectDial? then
      || (g' == g && pc' == DirectFail)
      || (g' == g.Dialled() && pc' == DirectOffer(g.next))
    else if pc.DirectFail? then
      g.failedChan < FAILED_CHAN_CAP && g' == g.(failedChan := g.failedChan + 1) && pc' == DirectDone
    else if pc.DirectOffer? then
      g.ctxDone && g' == g && pc' == DirectClose(pc.conn)
    else if pc.DirectClose? then
      g' == g.(closes := g.closes + multiset{pc.conn}) && pc' == DirectDone
    else
      false
  }

  predicate Receiving(main: MainPc) {
    main.Waiting? || main.LastLook?
  }

  function Received(main: MainPc, result: RouteResult): MainPc {
    if main.Waiting? then Cancelling(result) else Storing(result)
  }

  ghost predicate ByMain(s: State, s': State) {
    && s'.ssh == s.ssh && s'.direct == s.direct
    && MainStep(s.g, s.main, s'.g, s'.main)
  }

  ghost predicate BySsh(s: State, s': State) {
    && s'.main == s.main && s'.direct == s.direct
    && SshStep(s.g, s.ssh, s'.g, s'.ssh)
  }

  ghost predicate ByDirect(s: State, s': State) {
    && s'.main == s.main && s'.ssh == s.ssh
    && DirectStep(s.g, s.direct, s'.g, s'.direct)
  }

  ghost predicate Spawns(s: State, s': State) {
    || (s.main.SpawnSsh? && s' == s.(main := SpawnDirect, ssh := SshGet))
    || (s.main.SpawnDirect? && s' == s.(main := Waiting(0), direct := DirectDial))
  }

  /** A rendezvous on the unbuffered result channel. */
  ghost predicate HandsOver(s: State, s': State) {
    && Receiving(s.main)
    && (|| (s.ssh.SshOffer?
            && s' == s.(main := Received(s.main, SshResult(s.ssh.conn, s.ssh.client)), ssh := SshDone))
        || (s.direct.DirectOffer?
            && s' == s.(main := Received(s.main, DirectResult(s.direct.conn)), direct := DirectDone)))
  }

  /** One of the three goroutines makes progress. */
  ghost predicate Progress(s: State, s': State) {
    || ByMain(s, s')
    || BySsh(s, s')
    || ByDirect(s, s')
    || Spawns(s, s')
    || HandsOver(s, s')
  }

  /** The route timeout. */
  ghost predicate Expires(s: State, s': State) {
    !s.g.ctxDone && s' == s.(g := s.g.(ctxDone := true))
  }

  ghost predicate Next(s: State, s': State) {
    Progress(s, s') || Expires(s, s')
  }

  ghost predicate Init(s: State) {
    && s.g == Shared(s.g.view, false, 0, 0, multiset{}, multiset{}, multiset{}, multiset{}, [])
    && s.main == Lookup && s.ssh == SshNotStarted && s.direct == DirectNotStarted
  }

  ghost predicate NextAt(run: seq<State>, i: int)
    requires 0 <= i < |run| - 1
  {
    Next(run[i], run[i + 1])
  }

  ghost predicate IsRun(run: seq<State>) {
    && run != []
    && Init(run[0])
    && forall i :: 0 <= i < |run| - 1 ==> NextAt(run, i)
  }

  // ---- what each goroutine holds ----

  predicate HasResult(pc: MainPc) {
    pc.CachedStore? || pc.Cancelling? || pc.Storing? || pc.Returning? || pc.Returned?
  }

  function MainClient(pc: MainPc): Option<Client> {
    if pc.CachedDial? || pc.CachedPut? then Some(pc.client)
    else if HasResult(pc) then pc.result.sshClient
    else None
  }

  function MainConn(pc: MainPc): Option<Conn> {
    if HasResult(pc) then pc.result.conn else None
  }

  function SshClient(pc: SshPc): Option<Client> {
    if pc.SshDial? || pc.SshPutBack? || pc.SshOffer? || pc.SshClose? || pc.SshPut? then Some(pc.client) else None
  }

  function SshConn(pc: SshPc): Option<Conn> {
    if pc.SshOffer? || pc.SshClose? then Some(pc.conn) else None
  }

  function DirectConn(pc: DirectPc): Option<Conn> {
    if pc.DirectOffer? || pc.DirectClose? then Some(pc.conn) else None
  }

  function One(held: Option<nat>, x: nat): nat {
    if held == Some(x) then 1 else 0
  }

  /** How many of the three goroutines hold the connection. */
  function ConnHolders(s: State, c: Conn): nat {
    One(MainConn(s.main), c) + One(SshConn(s.ssh), c) + One(DirectConn(s.direct), c)
  }

  /** Nothing obtained is lost and nothing is given back twice. */
  ghost predicate Balanced(s: State) {
    && (forall c: Client :: s.g.gets[c] == s.g.puts[c] + One(MainClient(s.main), c) + One(SshClient(s.ssh), c))
    && (forall c: Conn :: s.g.dials[c] == s.g.closes[c] + ConnHolders(s, c))
    && DialledOnce(s.g)
  }

  /** Every connection so far was dialled once. */
  ghost predicate DialledOnce(g: Shared) {
    forall c: Conn :: g.dials[c] == if c < g.next then 1 else 0
  }

  /** A result is a connection by one of the two methods, with a client exactly for SSH. */
  predicate WellFormed(r: RouteResult) {
    r == NO_ROUTE || Routable(r)
  }

  function SshFailures(pc: SshPc): nat {
    if pc.SshDone? then 1 else 0
  }

  function DirectFailures(pc: DirectPc): nat {
    if pc.DirectDone? then 1 else 0
  }

  predicate BeforeSpawn(pc: MainPc) {
    || pc.Lookup? || pc.CachedGet? || pc.CachedDial? || pc.CachedPut? || pc.CachedDirect? || pc.CachedStore?
    || pc.SpawnSsh?
  }

  /** Where the three goroutines can be together. */
  ghost predicate InStep(s: State) {
    && (BeforeSpawn(s.main) ==> s.ssh.SshNotStarted? && s.direct.DirectNotStarted? && s.g.failedChan == 0)
    && (s.main.SpawnDirect? ==> !s.ssh.SshNotStarted? && s.direct.DirectNotStarted?)
    && (Receiving(s.main) || s.main.GivingUp? || s.main.Cancelling? || s.main.Storing?
        ==> !s.ssh.SshNotStarted? && !s.direct.DirectNotStarted?)
    && (s.ssh.SshNotStarted? ==> s.direct.DirectNotStarted?)
    && (s.direct.DirectNotStarted? && (s.main.Returning? || s.main.Returned?) ==> s.ssh.SshNotStarted?)
    && (HasResult(s.main) ==> WellFormed(s.main.result))
    && (s.main.CachedStore? || s.main.Cancelling? || s.main.Storing? ==> s.main.result != NO_ROUTE)
    && (s.main.LastLook? || s.main.Returned? ==> s.g.ctxDone)
    && (s.ssh.SshClose? || s.ssh.SshPut? || s.direct.DirectClose? ==> s.g.ctxDone)
    // failure notices: at most one by each prober, and before the context ends a prober
    // that is done while the caller waits has sent one
    && s.g.failedChan <= SshFailures(s.ssh) + DirectFailures(s.direct)
    && (s.main.Waiting? ==>
          && s.main.failCount < 2
          && s.main.failCount + s.g.failedChan <= SshFailures(s.ssh) + DirectFailures(s.direct)
          && (!s.g.ctxDone ==> s.main.failCount + s.g.failedChan == SshFailures(s.ssh) + DirectFailures(s.direct)))
    && (s.main.SpawnDirect? && !s.g.ctxDone ==> s.g.failedChan == SshFailures(s.ssh))
    && (s.main.GivingUp? && !s.g.ctxDone ==> s.ssh.SshDone? && s.direct.DirectDone?)
  }

  /** What the caller has written to the route cache so far. */
  ghost predicate StoresOnce(s: State) {
    if s.main.Returning? || s.main.Returned? then
      if s.main.result.conn.Some? then s.g.stored == [Success(s.main.result.via)]
      else s.g.stored == if FastFail(s.g.view) then [] else [Failure]
    else
      s.g.stored == [] && (FastFail(s.g.view) ==> s.main.Lookup?)
  }

  ghost predicate Inv(s: State) {
    Balanced(s) && InStep(s) && StoresOnce(s)
  }

  // ---- every step keeps the invariant ----

  /** What a goroutine obtained less what it gave back changes as what it holds does. */
  ghost predicate Settles(g: Shared, client: Option<Client>, conn: Option<Conn>,
                          g': Shared, client': Option<Client>, conn': Option<Conn>) {
    && (forall c: Client :: g'.gets[c] + g.puts[c] + One(client, c) == g.gets[c] + g'.puts[c] + One(client', c))
    && (forall c: Conn :: g'.dials[c] + g.closes[c] + One(conn, c) == g.dials[c] + g'.closes[c] + One(conn', c))
    && ((g'.dials == g.dials && g'.next == g.next) || (g'.dials == g.dials + multiset{g.next} && g'.next == g.next + 1))
  }

  lemma DialKeepsDialledOnce(g: Shared, g': Shared)
    requires DialledOnce(g)
    requires || (g'.dials == g.dials && g'.next == g.next)
             || (g'.dials == g.dials + multiset{g.next} && g'.next == g.next + 1)
    ensures DialledOnce(g')
  {
  }

  lemma CachedSettles(g: Shared, pc: MainPc, g': Shared, pc': MainPc)
    requires CachedStep(g, pc, g', pc')
    ensures Settles(g, MainClient(pc), MainConn(pc), g', MainClient(pc'), MainConn(pc'))
  {
  }

  lemma WaitSettles(g: Shared, pc: MainPc, g': Shared, pc': MainPc)
    requires WaitStep(g, pc, g', pc')
    ensures Settles(g, MainClient(pc), MainConn(pc), g', MainClient(pc'), MainConn(pc'))
  {
  }

  lemma SshSettles(g: Shared, pc: SshPc, g': Shared, pc': SshPc)
    requires SshStep(g, pc, g', pc')
    ensures Settles(g, SshClient(pc), SshConn(pc), g', SshClient(pc'), SshConn(pc'))
  {
  }

  lemma DirectSettles(g: Shared, pc: DirectPc, g': Shared, pc': DirectPc)
    requires DirectStep(g, pc, g', pc')
    ensures Settles(g, None, DirectConn(pc), g', None, DirectConn(pc'))
  {
  }

  lemma MainBalances(s: State, s': State)
    requires Balanced(s) && s'.ssh == s.ssh && s'.direct == s.direct
    requires Settles(s.g, MainClient(s.main), MainConn(s.main), s'.g, MainClient(s'.main), MainConn(s'.main))
    ensures Balanced(s')
  {
    forall c: Client ensures s'.g.gets[c] == s'.g.puts[c] + One(MainClient(s'.main), c) + One(SshClient(s'.ssh), c) {
      assert s.g.gets[c] == s.g.puts[c] + One(MainClient(s.main), c) + One(SshClient(s.ssh), c);
    }
    forall c: Conn ensures s'.g.dials[c] == s'.g.closes[c] + ConnHolders(s', c) {
      assert s.g.dials[c] == s.g.closes[c] + ConnHolders(s, c);
    }
    DialKeepsDialledOnce(s.g, s'.g);
  }

  lemma SshBalances(s: State, s': State)
    requires Balanced(s) && s'.main == s.main && s'.direct == s.direct
    requires Settles(s.g, SshClient(s.ssh), SshConn(s.ssh), s'.g, SshClient(s'.ssh), SshConn(s'.ssh))
    ensures Balanced(s')
  {
    forall c: Client ensures s'.g.gets[c] == s'.g.puts[c] + One(MainClient(s'.main), c) + One(SshClient(s'.ssh), c) {
      assert s.g.gets[c] == s.g.puts[c] + One(MainClient(s.main), c) + One(SshClient(s.ssh), c);
    }
    forall c: Conn ensures s'.g.dials[c] == s'.g.closes[c] + ConnHolders(s', c) {
      assert s.g.dials[c] == s.g.closes[c] + ConnHolders(s, c);
    }
    DialKeepsDialledOnce(s.g, s'.g);
  }

  lemma DirectBalances(s: State, s': State)
    requires Balanced(s) && s'.main == s.main && s'.ssh == s.ssh
    requires Settles(s.g, None, DirectConn(s.direct), s'.g, None, DirectConn(s'.direct))
    ensures Balanced(s')
  {
    forall c: Client ensures s'.g.gets[c] == s'.g.puts[c] + One(MainClient(s'.main), c) + One(SshClient(s'.ssh), c) {
      assert s.g.gets[c] == s.g.puts[c] + One(MainClient(s.main), c) + One(SshClient(s.ssh), c);
    }
    forall c: Conn ensures s'.g.dials[c] == s'.g.closes[c] + ConnHolders(s', c) {
      assert s.g.dials[c] == s.g.closes[c] + ConnHolders(s, c);
    }
    DialKeepsDialledOnce(s.g, s'.g);
  }

  lemma MainKeepsBalanced(s: State, s': State)
    requires Balanced(s) && ByMain(s, s')
    ensures Balanced(s')
  {
    if CachedStep(s.g, s.main, s'.g, s'.main) {
      CachedSettles(s.g, s.main, s'.g, s'.main);
    } else {
      WaitSettles(s.g, s.main, s'.g, s'.main);
    }
    MainBalances(s, s');
  }

  lemma SshKeepsBalanced(s: State, s': State)
    requires Balanced(s) && BySsh(s, s')
    ensures Balanced(s')
  {
    SshSettles(s.g, s.ssh, s'.g, s'.ssh);
    SshBalances(s, s');
  }

  lemma DirectKeepsBalanced(s: State, s': State)
    requires Balanced(s) && ByDirect(s, s')
    ensures Balanced(s')
  {
    DirectSettles(s.g, s.direct, s'.g, s'.direct);
    DirectBalances(s, s');
  }

  lemma HandOverKeepsBalanced(s: State, s': State)
    requires Balanced(s) && HandsOver(s, s')
    ensures Balanced(s')
  {
    assert MainClient(s.main) == None && MainConn(s.main) == None;
    if s'.ssh != s.ssh {
      assert MainClient(s'.main) == SshClient(s.ssh) && SshClient(s'.ssh) == None;
    } else {
      assert MainClient(s'.main) == None;
    }
  }

  lemma OthersKeepBalanced(s: State, s': State)
    requires Balanced(s) && InStep(s) && (Spawns(s, s') || HandsOver(s, s') || Expires(s, s'))
    ensures Balanced(s')
  {
    if HandsOver(s, s') {
      HandOverKeepsBalanced(s, s');
    } else if Spawns(s, s') {
      SpawnKeepsBalanced(s, s');
    }
  }

  lemma SpawnKeepsBalanced(s: State, s': State)
    requires Balanced(s) && InStep(s) && Spawns(s, s')
    ensures Balanced(s')
  {
    assert MainClient(s'.main) == MainClient(s.main) && SshClient(s'.ssh) == SshClient(s.ssh);
    assert MainConn(s'.main) == MainConn(s.main) && SshConn(s'.ssh) == SshConn(s.ssh);
    assert DirectConn(s'.direct) == DirectConn(s.direct);
  }

  lemma MainKeepsInStep(s: State, s': State)
    requires InStep(s) && StoresOnce(s) && ByMain(s, s')
    ensures InStep(s') && StoresOnce(s')
  {
  }

  lemma SshKeepsInStep(s: State, s': State)
    requires InStep(s) && StoresOnce(s) && BySsh(s, s')
    ensures InStep(s') && StoresOnce(s')
  {
  }

  lemma DirectKeepsInStep(s: State, s': State)
    requires InStep(s) && StoresOnce(s) && ByDirect(s, s')
    ensures InStep(s') && StoresOnce(s')
  {
  }

  lemma OthersKeepInStep(s: State, s': State)
    requires InStep(s) && StoresOnce(s) && (Spawns(s, s') || HandsOver(s, s') || Expires(s, s'))
    ensures InStep(s') && StoresOnce(s')
  {
  }

  lemma NextKeepsInv(s: State, s': State)
    requires Inv(s) && Next(s, s')
    ensures Inv(s')
  {
    if ByMain(s, s') {
      MainKeepsBalanced(s, s');
      MainKeepsInStep(s, s');
    } else if BySsh(s, s') {
      SshKeepsBalanced(s, s');
      SshKeepsInStep(s, s');
    } else if ByDirect(s, s') {
      DirectKeepsBalanced(s, s');
      DirectKeepsInStep(s, s');
    } else {
      OthersKeepBalanced(s, s');
      OthersKeepInStep(s, s');
    }
  }
}
