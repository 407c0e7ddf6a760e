/** Who owns which SSH client.  In every reachable state a client is in at most one place,
    one channel slot or one goroutine's hands, and no client is lost: what is in neither
    place has been closed. */
module PoolOwnership {
  import opened Common
  import opened Pool

  ghost function InHand(s: State, p: Pid): Option<Client> {
    Hand(s.Pc(p))
  }

  ghost predicate Held(s: State, c: Client) {
    exists p :: InHand(s, p) == Some(c)
  }

  predicate Created(s: State, c: Client) {
    NIL < c < s.g.next
  }

  /** What a health checker goroutine may look at. */
  ghost predicate Looks(pc: Pc, c: Client) {
    || (pc.HealthRound? && c in pc.pending)
    || ((pc.HealthProbe? || pc.HealthMark? || pc.HealthUntrack? || pc.HealthShut?) && pc.c == c)
  }

  ghost predicate OnePlace(s: State) {
    && (forall i :: 0 <= i < |s.g.connections| ==> Created(s, s.g.connections[i]))
    && (forall i, j :: 0 <= i < j < |s.g.connections| ==> s.g.connections[i] != s.g.connections[j])
    && (forall p :: InHand(s, p).Some? ==> Created(s, InHand(s, p).value) && InHand(s, p).value !in s.g.connections)
    && (forall p, q :: p != q && InHand(s, p).Some? ==> InHand(s, p) != InHand(s, q))
  }

  ghost predicate NoneLost(s: State) {
    forall c :: Created(s, c) ==> c in s.g.connections || c in s.g.shut || Held(s, c)
  }

  /** Only the health check closes a client that is in use or in the channel. */
  ghost predicate ShutIsGone(s: State) {
    && s.g.killed <= s.g.shut
    && (forall c :: c in s.g.shut ==> Created(s, c))
    && (forall c :: c in s.g.shut && c in s.g.connections ==> c in s.g.killed)
    && (forall p :: InHand(s, p).Some? && InHand(s, p).value in s.g.shut ==> InHand(s, p).value in s.g.killed)
  }

  ghost predicate Known(s: State) {
    && (forall c :: c in s.g.lastUsed ==> Created(s, c))
    && (forall p, c :: Looks(s.Pc(p), c) ==> Created(s, c))
  }

  ghost predicate Owned(s: State) {
    && s.g.next > NIL && |s.g.connections| <= s.g.maxSize
    && OnePlace(s) && NoneLost(s) && ShutIsGone(s) && Known(s)
  }

  // ---- the ways a client changes hands ----

  ghost predicate Keeps(g: Shared, pc: Pc, g': Shared, pc': Pc) {
    && Hand(pc') == Hand(pc)
    && g'.connections == g.connections && g'.next == g.next && g'.shut == g.shut && g'.killed == g.killed
  }

  /** The head of the channel is received. */
  ghost predicate Takes(g: Shared, pc: Pc, g': Shared, pc': Pc) {
    && Hand(pc) == None
    && g.connections != [] && g'.connections == g.connections[1..]
    && (g.connections[0] != NIL ==> Hand(pc') == Some(g.connections[0]))
    && g'.next == g.next && g'.shut == g.shut && g'.killed == g.killed
  }

  /** What was held is sent into the channel. */
  ghost predicate Gives(g: Shared, pc: Pc, g': Shared, pc': Pc) {
    && Hand(pc).Some? && Hand(pc') == None
    && |g.connections| < g.maxSize && g'.connections == g.connections + [Hand(pc).value]
    && g'.next == g.next && g'.shut == g.shut && g'.killed == g.killed
  }

  ghost predicate Creates(g: Shared, pc: Pc, g': Shared, pc': Pc) {
    && Hand(pc) == None && Hand(pc') == Some(g.next)
    && g'.connections == g.connections && g'.next == g.next + 1 && g'.shut == g.shut && g'.killed == g.killed
  }

  /** What was held is closed. */
  ghost predicate Disposes(g: Shared, pc: Pc, g': Shared, pc': Pc) {
    && pc.Shut? && Hand(pc') == None
    && g'.connections == g.connections && g'.next == g.next
    && g'.shut == g.shut + {Hand(pc).value} && g'.killed == g.killed
  }

  /** A health prober closes a client it does not hold. */
  ghost predicate Kills(g: Shared, pc: Pc, g': Shared, pc': Pc) {
    && pc.HealthShut? && Hand(pc') == None
    && g'.connections == g.connections && g'.next == g.next
    && g'.shut == g.shut + {pc.c} && g'.killed == g.killed + {pc.c}
  }

  ghost predicate Transfers(g: Shared, pc: Pc, g': Shared, pc': Pc) {
    || Keeps(g, pc, g', pc')
    || Takes(g, pc, g', pc')
    || Gives(g, pc, g', pc')
    || Creates(g, pc, g', pc')
    || Disposes(g, pc, g', pc')
    || Kills(g, pc, g', pc')
  }

  /** What a step may add to the tracked clients and to the ones a checker looks at. */
  ghost predicate Discovers(g: Shared, pc: Pc, g': Shared, pc': Pc) {
    && (forall c :: c in g'.lastUsed ==> c in g.lastUsed || Hand(pc) == Some(c))
    && (forall c :: Looks(pc', c) ==> Looks(pc, c) || c in g.lastUsed)
    && g'.maxSize == g.maxSize
  }

  // ---- every step is one of the six ----

  lemma GetTransfers(g: Shared, pc: Pc, g': Shared, pc': Pc)
    requires GetStep(g, pc, g', pc')
    ensures Transfers(g, pc, g', pc') && Discovers(g, pc, g', pc')
  {
  }

  lemma DialTransfers(g: Shared, pc: Pc, g': Shared, pc': Pc)
    requires DialStep(g, pc, g', pc')
    ensures Transfers(g, pc, g', pc') && Discovers(g, pc, g', pc')
  {
    DialDiscovers(g, pc, g', pc');
  }

  lemma DialDiscovers(g: Shared, pc: Pc, g': Shared, pc': Pc)
    requires DialStep(g, pc, g', pc')
    ensures Discovers(g, pc, g', pc')
  {
  }

  lemma PutTransfers(g: Shared, pc: Pc, g': Shared, pc': Pc)
    requires PutStep(g, pc, g', pc')
    ensures Transfers(g, pc, g', pc') && Discovers(g, pc, g', pc')
  {
    if g'.connections == g.connections {
      assert Keeps(g, pc, g', pc');
    }
  }

  lemma ForgetTransfers(g: Shared, pc: Pc, g': Shared, pc': Pc)
    requires ForgetStep(g, pc, g', pc')
    ensures Transfers(g, pc, g', pc') && Discovers(g, pc, g', pc')
  {
  }

  lemma CloseTransfers(g: Shared, pc: Pc, g': Shared, pc': Pc)
    requires CloseStep(g, pc, g', pc')
    ensures Transfers(g, pc, g', pc') && Discovers(g, pc, g', pc')
  {
  }

  lemma SweepTransfers(g: Shared, pc: Pc, g': Shared, pc': Pc)
    requires SweepStep(g, pc, g', pc')
    ensures Transfers(g, pc, g', pc') && Discovers(g, pc, g', pc')
  {
  }

  lemma CheckerTransfers(g: Shared, pc: Pc, g': Shared, pc': Pc)
    requires CheckerStep(g, pc, g', pc')
    ensures Transfers(g, pc, g', pc') && Discovers(g, pc, g', pc')
  {
  }

  lemma ProberTransfers(g: Shared, pc: Pc, g': Shared, pc': Pc)
    requires ProberStep(g, pc, g', pc')
    ensures Transfers(g, pc, g', pc') && Discovers(g, pc, g', pc')
  {
  }

  lemma StepTransfers(g: Shared, pc: Pc, g': Shared, pc': Pc)
    requires LocalStep(g, pc, g', pc')
    ensures Transfers(g, pc, g', pc') && Discovers(g, pc, g', pc')
  {
    var r :| StepIn(r, g, pc, g', pc');
    match r
    case Get => GetTransfers(g, pc, g', pc');
    case CreateConnection => DialTransfers(g, pc, g', pc');
    case Put => PutTransfers(g, pc, g', pc');
    case Forget => ForgetTransfers(g, pc, g', pc');
    case CloseAll => CloseTransfers(g, pc, g', pc');
    case Cleanup => SweepTransfers(g, pc, g', pc');
    case Check => CheckerTransfers(g, pc, g', pc');
    case Probe => ProberTransfers(g, pc, g', pc');
  }

  // ---- each of the six keeps the ownership ----

  /** p moved and nobody else did. */
  ghost predicate Moved(s: State, p: Pid, s': State) {
    s'.procs == s.procs[p := s'.Pc(p)]
  }

  lemma HeldElsewhere(s: State, p: Pid, s': State, c: Client)
    requires Moved(s, p, s') && Held(s, c) && (InHand(s, p) != Some(c) || InHand(s', p) == Some(c))
    ensures Held(s', c)
  {
    var q :| InHand(s, q) == Some(c);
    assert InHand(s', q) == Some(c);
  }

  lemma KeepKeeps(s: State, p: Pid, s': State)
    requires Owned(s) && Moved(s, p, s') && Keeps(s.g, s.Pc(p), s'.g, s'.Pc(p))
    ensures OnePlace(s') && NoneLost(s') && ShutIsGone(s')
  {
    assert forall q :: InHand(s', q) == InHand(s, q);
    forall c | Created(s', c) ensures c in s'.g.connections || c in s'.g.shut || Held(s', c) {
      if c !in s.g.connections && c !in s.g.shut {
        HeldElsewhere(s, p, s', c);
      }
    }
  }

  lemma TakeKeeps(s: State, p: Pid, s': State)
    requires Owned(s) && Moved(s, p, s') && Takes(s.g, s.Pc(p), s'.g, s'.Pc(p))
    ensures OnePlace(s') && NoneLost(s') && ShutIsGone(s')
  {
    TakenOnce(s, p, s');
    var taken := s.g.connections[0];
    assert InHand(s', p) == Some(taken);
    assert forall q :: q != p ==> InHand(s', q) == InHand(s, q);
    forall c | Created(s', c) ensures c in s'.g.connections || c in s'.g.shut || Held(s', c) {
      if c != taken && c in s.g.connections {
        assert c in s'.g.connections;
      } else if c != taken && c !in s.g.shut {
        HeldElsewhere(s, p, s', c);
      }
    }
  }

  /** The client taken was in no other slot and in nobody's hands. */
  lemma TakenOnce(s: State, p: Pid, s': State)
    requires OnePlace(s) && Moved(s, p, s') && Takes(s.g, s.Pc(p), s'.g, s'.Pc(p))
    ensures Created(s, s.g.connections[0]) && s.g.connections[0] !in s'.g.connections
    ensures forall q :: InHand(s, q) != Some(s.g.connections[0])
    ensures forall c :: c in s.g.connections <==> c == s.g.connections[0] || c in s'.g.connections
    ensures forall i :: 0 <= i < |s'.g.connections| ==> s'.g.connections[i] == s.g.connections[i + 1]
  {
    assert s.g.connections[0] in s.g.connections;
  }

  /** The client given was in no slot and in nobody else's hands, and is in the last slot. */
  lemma GivenOnce(s: State, p: Pid, s': State)
    requires OnePlace(s) && Moved(s, p, s') && Gives(s.g, s.Pc(p), s'.g, s'.Pc(p))
    ensures var c, n := InHand(s, p).value, |s.g.connections|;
            && Created(s, c) && c !in s.g.connections
            && InHand(s', p) == None
            && (forall q :: q != p ==> InHand(s', q) == InHand(s, q) && InHand(s, q) != Some(c))
            && s'.g.connections[n] == c && |s'.g.connections| == n + 1
            && (forall i :: 0 <= i < n ==> s'.g.connections[i] == s.g.connections[i] && s.g.connections[i] != c)
            && (forall d :: d in s'.g.connections <==> d in s.g.connections || d == c)
  {
    var c := InHand(s, p).value;
    assert forall q :: q != p ==> s'.Pc(q) == s.Pc(q);
  }

  lemma GiveKeeps(s: State, p: Pid, s': State)
    requires Owned(s) && Moved(s, p, s') && Gives(s.g, s.Pc(p), s'.g, s'.Pc(p))
    ensures OnePlace(s') && NoneLost(s') && ShutIsGone(s')
  {
    GivenOnce(s, p, s');
    forall c | Created(s', c) ensures c in s'.g.connections || c in s'.g.shut || Held(s', c) {
      if InHand(s, p) != Some(c) && c !in s.g.connections && c !in s.g.shut {
        HeldElsewhere(s, p, s', c);
      }
    }
  }

  lemma CreateKeeps(s: State, p: Pid, s': State)
    requires Owned(s) && Moved(s, p, s') && Creates(s.g, s.Pc(p), s'.g, s'.Pc(p))
    ensures OnePlace(s') && NoneLost(s') && ShutIsGone(s')
  {
    assert s.g.next !in s.g.connections;
    assert InHand(s', p) == Some(s.g.next);
    assert forall q :: q != p ==> InHand(s', q) == InHand(s, q);
    forall c | Created(s', c) ensures c in s'.g.connections || c in s'.g.shut || Held(s', c) {
      if c != s.g.next && c !in s.g.connections && c !in s.g.shut {
        HeldElsewhere(s, p, s', c);
      }
    }
  }

  lemma DisposeKeeps(s: State, p: Pid, s': State)
    requires Owned(s) && Moved(s, p, s') && Disposes(s.g, s.Pc(p), s'.g, s'.Pc(p))
    ensures OnePlace(s') && NoneLost(s') && ShutIsGone(s')
  {
    var gone := s.Pc(p).c;
    assert InHand(s, p) == Some(gone) && Created(s, gone) && gone !in s.g.connections;
    assert forall q :: q != p ==> InHand(s', q) == InHand(s, q) != Some(gone);
    assert forall c :: c in s'.g.shut ==> c in s.g.shut || c == gone;
    forall c | Created(s', c) ensures c in s'.g.connections || c in s'.g.shut || Held(s', c) {
      if InHand(s, p) != Some(c) && c !in s.g.connections && c !in s.g.shut {
        HeldElsewhere(s, p, s', c);
      }
    }
  }

  lemma KillKeeps(s: State, p: Pid, s': State)
    requires Owned(s) && Moved(s, p, s') && Kills(s.g, s.Pc(p), s'.g, s'.Pc(p))
    ensures OnePlace(s') && NoneLost(s') && ShutIsGone(s')
  {
    assert Looks(s.Pc(p), s.Pc(p).c);
    assert forall q :: InHand(s', q) == InHand(s, q);
    forall c | Created(s', c) ensures c in s'.g.connections || c in s'.g.shut || Held(s', c) {
      if c !in s.g.connections && c !in s.g.shut {
        HeldElsewhere(s, p, s', c);
      }
    }
  }

  lemma TransferKeeps(s: State, p: Pid, s': State)
    requires Owned(s) && Moved(s, p, s') && Transfers(s.g, s.Pc(p), s'.g, s'.Pc(p))
    ensures s'.g.next >= s.g.next && OnePlace(s') && NoneLost(s') && ShutIsGone(s')
    ensures |s'.g.connections| <= s.g.maxSize
  {
    if Keeps(s.g, s.Pc(p), s'.g, s'.Pc(p)) { KeepKeeps(s, p, s'); }
    else if Takes(s.g, s.Pc(p), s'.g, s'.Pc(p)) { TakeKeeps(s, p, s'); }
    else if Gives(s.g, s.Pc(p), s'.g, s'.Pc(p)) { GiveKeeps(s, p, s'); }
    else if Creates(s.g, s.Pc(p), s'.g, s'.Pc(p)) { CreateKeeps(s, p, s'); }
    else if Disposes(s.g, s.Pc(p), s'.g, s'.Pc(p)) { DisposeKeeps(s, p, s'); }
    else { KillKeeps(s, p, s'); }
  }

  lemma StepKeepsKnown(s: State, p: Pid, s': State)
    requires Owned(s) && Moved(s, p, s') && s'.g.next >= s.g.next && Discovers(s.g, s.Pc(p), s'.g, s'.Pc(p))
    ensures Known(s')
  {
    forall c | c in s'.g.lastUsed ensures Created(s', c) {
      assert c in s.g.lastUsed || InHand(s, p) == Some(c);
    }
    forall q: Pid, c: Client | Looks(s'.Pc(q), c) ensures Created(s', c) {
      if !Looks(s.Pc(q), c) {
        assert c in s.g.lastUsed;
      }
      assert Created(s, c);
    }
  }

  lemma StepKeepsOwned(s: State, p: Pid, s': State)
    requires Owned(s) && Step(s, p, s')
    ensures Owned(s')
  {
    StepTransfers(s.g, s.Pc(p), s'.g, s'.Pc(p));
    TransferKeeps(s, p, s');
    StepKeepsKnown(s, p, s');
  }

  /** A step that leaves the shared ownership alone and moves p, who holds nothing before or after. */
  lemma SpawnKeepsOwned(s: State, p: Pid, q: Pid, c: Client, s': State)
    requires Owned(s) && Spawn(s, p, q, c, s')
    ensures Owned(s')
  {
    var mid := State(s'.g, s.procs[p := HealthRound(s.Pc(p).pending - {c})]);
    assert Looks(s.Pc(p), c);
    KeepKeeps(s, p, mid);
    forall r: Pid, d: Client | Looks(mid.Pc(r), d) ensures Created(mid, d) {
      assert Looks(s.Pc(r), d);
    }
    assert s'.procs == mid.procs[q := s'.Pc(q)];
    KeepKeeps(mid, q, s');
    forall r: Pid, d: Client | Looks(s'.Pc(r), d) ensures Created(s', d) {
      assert Looks(mid.Pc(r), d) || d == c;
    }
  }

  lemma TickKeepsOwned(s: State, s': State)
    requires Owned(s) && Tick(s, s')
    ensures Owned(s')
  {
    assert forall p :: InHand(s', p) == InHand(s, p) && s'.Pc(p) == s.Pc(p);
    forall c | Created(s', c) ensures c in s'.g.connections || c in s'.g.shut || Held(s', c) {
      if Held(s, c) {
        var p :| InHand(s, p) == Some(c);
        assert InHand(s', p) == Some(c);
      }
    }
  }

  lemma NextKeepsOwned(s: State, s': State)
    requires Owned(s) && Next(s, s')
    ensures Owned(s')
  {
    if Tick(s, s') {
      TickKeepsOwned(s, s');
    } else if p :| Step(s, p, s') {
      StepKeepsOwned(s, p, s');
    } else {
      var p, q, c :| Spawn(s, p, q, c, s');
      SpawnKeepsOwned(s, p, q, c, s');
    }
  }

  lemma InitOwned(s: State)
    requires Init(s)
    ensures Owned(s)
  {
    assert forall p :: InHand(s, p) == None;
    assert forall p, c :: !Looks(s.Pc(p), c);
  }
}
