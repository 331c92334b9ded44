/** What holds in every reachable state of the connection pool. */
module PoolTheorems {
  import opened SshPool
  import opened PoolSystem

  // -------------------------------------------------------------- ownership

  ghost predicate Holds(s: Sys, t: Tid, k: Key, c: int) {
    t in s.threads && s.threads[t].Holding? && s.threads[t].key == k && s.threads[t].client == c
  }

  /** Holders own distinct clients, and in an open pool the active clients are exactly the held ones. */
  ghost predicate Owned(s: Sys) {
    && (forall t, k, c :: Holds(s, t, k, c) ==> c < s.dialed)
    && (forall t, u, k, j, c :: Holds(s, t, k, c) && Holds(s, u, j, c) ==> t == u)
    && (!s.pool.closed ==> forall t, k, c :: Holds(s, t, k, c) ==> k in s.pool.hosts && c in s.pool.hosts[k].active)
    && (!s.pool.closed ==>
          forall k, c :: k in s.pool.hosts && c in s.pool.hosts[k].active ==> exists t :: Holds(s, t, k, c))
  }

  /** Every dialed client is in the pool, about to be closed, or closed, and in one of these only. */
  ghost predicate Conserved(s: Sys) {
    && (forall c: Client :: c in AllClients(s.pool) || c in s.doomed || c in s.dead <==> c < s.dialed)
    && AllClients(s.pool) !! s.doomed
    && AllClients(s.pool) !! s.dead
    && s.doomed !! s.dead
  }

  /** A release that no Acquire owes changes nothing when it names a client its host does not have
      active, or a closed client of an unknown host. */
  predicate Harmless(s: Sys, st: Step) {
    st.StrayRelease? ==>
      if st.key in s.pool.hosts then st.client !in s.pool.hosts[st.key].active else st.client in s.dead
  }

  /** A run in which every Release is the one a successful Acquire owes (ssh/exec.go:19-23), or is
      harmless when it happens. */
  ghost predicate Disciplined(s: Sys, steps: seq<Step>, o: Options)
    decreases |steps|
  {
    steps != [] && Enabled(s, steps[0]) ==> Harmless(s, steps[0]) && Disciplined(Apply(s, steps[0], o), steps[1..], o)
  }

  lemma HarmlessIsNoOp(s: Sys, st: Step, o: Options)
    requires Enabled(s, st) && st.StrayRelease? && Harmless(s, st)
    ensures Apply(s, st, o) == s
  {
    if st.key !in s.pool.hosts { assert s.dead + {st.client} == s.dead; }
  }

  /** The exact condition: a stray release keeps ownership and conservation if and only if it is
      harmless, on an open pool and on a closed one. */
  lemma StrayKeepsOwnershipIff(s: Sys, st: Step, o: Options)
    requires Core(s, o) && Owned(s) && Conserved(s) && Enabled(s, st) && st.StrayRelease?
    ensures Owned(Apply(s, st, o)) && Conserved(Apply(s, st, o)) <==> Harmless(s, st)
  {
    var s', k, c := Apply(s, st, o), st.key, st.client;
    if Harmless(s, st) {
      HarmlessIsNoOp(s, st, o);
    } else if k in s.pool.hosts {
      StrayTakes(s, k, c, st.now, o);
    } else {
      assert s'.pool == s.pool && s'.doomed == s.doomed && c in s'.dead;
      assert c in AllClients(s.pool) || c in s.doomed;
    }
  }

  /** Releasing an active client behind its holder's back breaks ownership. */
  lemma StrayTakes(s: Sys, k: Key, c: Client, now: Time, o: Options)
    requires Core(s, o) && Owned(s) && k in s.pool.hosts && c in s.pool.hosts[k].active
    ensures !Owned(ApplyRelease(s, k, c, now))
  {
    var s' := ApplyRelease(s, k, c, now);
    var t :| Holds(s, t, k, c);
    assert Holds(s', t, k, c) && c !in s'.pool.hosts[k].active;
  }

  /** Replacing one host's clients, as seen from the whole pool. */
  lemma AllClientsOneHost(s: Sys, s': Sys, key: Key, moved: set<Tid>)
    requires OneHost(s, s', key, moved) && ClientsPlaced(s)
    ensures AllClients(s'.pool)
            == (AllClients(s.pool) - HostClients(GetHost(s.pool, key))) + HostClients(s'.pool.hosts[key])
  {
    var h0 := HostClients(GetHost(s.pool, key));
    forall c | c in AllClients(s'.pool) ensures c in (AllClients(s.pool) - h0) + HostClients(s'.pool.hosts[key]) {
      var k :| k in s'.pool.hosts && c in HostClients(s'.pool.hosts[k]);
      if k != key {
        assert s'.pool.hosts[k] == s.pool.hosts[k];
        assert c !in h0;
      }
    }
    forall c | c in AllClients(s.pool) && c !in h0 ensures c in AllClients(s'.pool) {
      var k :| k in s.pool.hosts && c in HostClients(s.pool.hosts[k]);
      assert k != key;
      assert s'.pool.hosts[k] == s.pool.hosts[k];
    }
  }

  /** A step that dooms `gone` out of one host and may add the client just dialed. */
  lemma ConservedOneHost(s: Sys, s': Sys, key: Key, moved: set<Tid>, gone: set<Client>)
    requires OneHost(s, s', key, moved) && ClientsPlaced(s) && Conserved(s)
    requires gone <= HostClients(GetHost(s.pool, key))
    requires var stay := HostClients(GetHost(s.pool, key)) - gone;
             || (s'.dialed == s.dialed && HostClients(s'.pool.hosts[key]) == stay)
             || (s'.dialed == s.dialed + 1 && HostClients(s'.pool.hosts[key]) == stay + {s.dialed})
    requires s'.doomed == s.doomed + gone && s'.dead == s.dead
    ensures Conserved(s')
  {
    AllClientsOneHost(s, s', key, moved);
    var h0 := HostClients(GetHost(s.pool, key));
    assert h0 <= AllClients(s.pool);
    var kept := AllClients(s.pool) - gone;
    assert AllClients(s'.pool) == kept + if s'.dialed == s.dialed then {} else {s.dialed};
    assert s.dialed !in s.doomed && s.dialed !in s.dead;
  }

  lemma ConservedAcquire(s: Sys, t: Tid, key: Key, h: Host, gone: seq<Client>, o: Options)
    requires t !in s.threads && Reaped(s, key, h, gone, o)
    requires ClientsPlaced(s) && Conserved(s)
    ensures Conserved(AcquireReaped(s, t, key, h, gone, o))
  {
    AcquiredShape(s, t, key, h, gone, o);
    AcquiredHost(s, t, key, h, gone, o);
    ConservedOneHost(s, AcquireReaped(s, t, key, h, gone, o), key, {t}, Elements(gone));
  }

  lemma ConservedStep(s: Sys, st: Step, o: Options)
    requires Core(s, o) && Conserved(s) && Enabled(s, st) && Harmless(s, st)
    ensures Conserved(Apply(s, st, o))
  {
    match st
    case AcquireStep(t, key, now) =>
      if s.pool.closed {
        ClosedAcquire(s, t, key, now, o);
      } else {
        ReapedForReserve(s, key, now, o);
        var h0 := GetHost(s.pool, key);
        ConservedAcquire(s, t, key, ReapHost(h0, now, o), Expired(h0.idle, now, o), o);
      }
    case DialOk(t) => ConservedDialOk(s, t, o);
    case DialFail(t) => ConservedDialFail(s, t, o);
    case ReleaseHeld(t, now) => ConservedRelease(s, t, now, o);
    case StrayRelease(_, _, _) => HarmlessIsNoOp(s, st, o);
    case Reap(now) => ConservedReap(s, now, o);
    case CloseStep => ConservedClose(s, o);
    case Signal(ch) =>
    case CloseClient(c) =>
    case WakeNotified(t) =>
    case WakeCancelled(t) =>
    case WakeDone(t) =>
  }

  lemma ConservedDialed(s: Sys, t: Tid, o: Options)
    requires Enabled(s, DialOk(t)) && !s.pool.closed && ClientsPlaced(s) && Conserved(s)
    requires s.threads[t].key in s.pool.hosts && HostAccounted(s, s.threads[t].key, o)
    ensures Conserved(ApplyDialOk(s, t))
  {
    var s', key := ApplyDialOk(s, t), s.threads[t].key;
    DialedGood(s, t, o);
    assert HostClients(s'.pool.hosts[key]) == HostClients(s.pool.hosts[key]) - {} + {s.dialed};
    ConservedOneHost(s, s', key, {t}, {});
  }

  lemma ConservedDialOk(s: Sys, t: Tid, o: Options)
    requires Core(s, o) && Conserved(s) && Enabled(s, DialOk(t))
    ensures Conserved(ApplyDialOk(s, t))
  {
    var s', key := ApplyDialOk(s, t), s.threads[t].key;
    if s.pool.closed {
      assert s'.pool.hosts.Keys == s.pool.hosts.Keys;
      assert AllClients(s.pool) == {} && AllClients(s'.pool) == {};
      assert s.dialed !in s.dead;
    } else {
      ConservedDialed(s, t, o);
    }
  }

  lemma ConservedDialFail(s: Sys, t: Tid, o: Options)
    requires Core(s, o) && Conserved(s) && Enabled(s, DialFail(t))
    ensures Conserved(Apply(s, DialFail(t), o))
  {
    if !s.pool.closed {
      var s', key := Apply(s, DialFail(t), o), s.threads[t].key;
      DialFailGood(s, t, o);
      assert HostClients(s'.pool.hosts[key]) == HostClients(s.pool.hosts[key]) - {};
      ConservedOneHost(s, s', key, {t}, {});
    }
  }

  lemma ConservedReturned(s: Sys, key: Key, c: Client, now: Time, o: Options)
    requires key in s.pool.hosts && HostAccounted(s, key, o) && !s.pool.closed && c in s.pool.hosts[key].active
    requires ClientsPlaced(s) && Conserved(s)
    ensures Conserved(ApplyRelease(s, key, c, now))
  {
    var s' := ApplyRelease(s, key, c, now);
    ReturnedHost(s, key, c, now, o);
    ReturnedChannel(s, key, c, now, o);
    assert HostClients(s'.pool.hosts[key]) == HostClients(s.pool.hosts[key]) - {};
    ConservedOneHost(s, s', key, {}, {});
  }

  lemma ConservedRelease(s: Sys, t: Tid, now: Time, o: Options)
    requires Core(s, o) && Conserved(s) && Enabled(s, ReleaseHeld(t, now))
    ensures Conserved(Apply(s, ReleaseHeld(t, now), o))
  {
    var key, c := s.threads[t].key, s.threads[t].client;
    if c in s.pool.hosts[key].active {
      ConservedReturned(s, key, c, now, o);
    }
  }

  /** Host k loses exactly its expired clients to a reap of the whole pool. */
  ghost predicate HostSplit(p: Pool, p': Pool, k: Key, now: Time, o: Options)
    requires k in p.hosts && k in p'.hosts
  {
    var gone := Elements(Expired(p.hosts[k].idle, now, o));
    HostClients(p.hosts[k]) == HostClients(p'.hosts[k]) + gone && HostClients(p'.hosts[k]) !! gone
  }

  lemma HostsSplit(s: Sys, now: Time, o: Options)
    requires forall k :: k in s.pool.hosts ==> HostAccounted(s, k, o)
    ensures forall k :: k in s.pool.hosts ==> HostSplit(s.pool, ReapIdle(s.pool, now, o), k, now, o)
  {
    forall k | k in s.pool.hosts ensures HostSplit(s.pool, ReapIdle(s.pool, now, o), k, now, o) {
      assert HostAccounted(s, k, o);
      ReapedSets(s.pool.hosts[k], now, o);
    }
  }

  lemma ExpiredLeave(s: Sys, p': Pool, now: Time, o: Options, c: Client)
    requires ClientsPlaced(s) && p'.hosts.Keys == s.pool.hosts.Keys
    requires forall k :: k in s.pool.hosts ==> HostSplit(s.pool, p', k, now, o)
    requires c in ReapedClients(s.pool, now, o)
    ensures c in AllClients(s.pool) && c !in AllClients(p')
  {
    var k :| k in s.pool.hosts && c in Expired(s.pool.hosts[k].idle, now, o);
    assert HostSplit(s.pool, p', k, now, o);
    assert c in Elements(Expired(s.pool.hosts[k].idle, now, o));
    assert c in HostClients(s.pool.hosts[k]);
    forall j | j in p'.hosts ensures c !in HostClients(p'.hosts[j]) {
      assert HostSplit(s.pool, p', j, now, o);
      if j != k { assert HostClients(s.pool.hosts[j]) !! HostClients(s.pool.hosts[k]); }
    }
  }

  lemma OthersStay(s: Sys, p': Pool, now: Time, o: Options, c: Client)
    requires p'.hosts.Keys == s.pool.hosts.Keys
    requires forall k :: k in s.pool.hosts ==> HostSplit(s.pool, p', k, now, o)
    ensures c in AllClients(p') ==> c in AllClients(s.pool)
    ensures c in AllClients(s.pool) && c !in ReapedClients(s.pool, now, o) ==> c in AllClients(p')
  {
    if c in AllClients(p') {
      var k :| k in p'.hosts && c in HostClients(p'.hosts[k]);
      assert HostSplit(s.pool, p', k, now, o);
    }
  }

  lemma ReapMember(s: Sys, now: Time, o: Options, c: Client)
    requires forall k :: k in s.pool.hosts ==> HostAccounted(s, k, o)
    requires ClientsPlaced(s)
    ensures var p', gone := ReapIdle(s.pool, now, o), ReapedClients(s.pool, now, o);
            (c in AllClients(s.pool) <==> c in AllClients(p') || c in gone) && !(c in AllClients(p') && c in gone)
  {
    var p' := ReapIdle(s.pool, now, o);
    HostsSplit(s, now, o);
    OthersStay(s, p', now, o, c);
    if c in ReapedClients(s.pool, now, o) { ExpiredLeave(s, p', now, o, c); }
  }

  /** A reap of the whole pool splits its clients into those kept and those doomed. */
  lemma ReapSplits(s: Sys, now: Time, o: Options)
    requires forall k :: k in s.pool.hosts ==> HostAccounted(s, k, o)
    requires ClientsPlaced(s)
    ensures var p' := ReapIdle(s.pool, now, o);
            && AllClients(s.pool) == AllClients(p') + ReapedClients(s.pool, now, o)
            && AllClients(p') !! ReapedClients(s.pool, now, o)
  {
    var p', gone := ReapIdle(s.pool, now, o), ReapedClients(s.pool, now, o);
    forall c: Client
      ensures (c in AllClients(s.pool) <==> c in AllClients(p') || c in gone) && !(c in AllClients(p') && c in gone)
    {
      ReapMember(s, now, o, c);
    }
  }

  lemma ConservedReap(s: Sys, now: Time, o: Options)
    requires Core(s, o) && Conserved(s)
    ensures Conserved(Apply(s, Reap(now), o))
  {
    if s.pool.closed {
      assert ReapedClients(s.pool, now, o) == {};
      assert AllClients(s.pool) == {} && AllClients(ReapIdle(s.pool, now, o)) == {};
    } else {
      ReapSplits(s, now, o);
    }
  }

  lemma ConservedClose(s: Sys, o: Options)
    requires Core(s, o) && Conserved(s)
    ensures Conserved(Apply(s, CloseStep, o))
  {
    var s' := Apply(s, CloseStep, o);
    if !s.pool.closed {
      forall k | k in s'.pool.hosts ensures HostClients(s'.pool.hosts[k]) == {} {
        assert s'.pool.hosts[k] == ClosedHost(s.pool.hosts[k]);
      }
      assert AllClients(s'.pool) == {};
    }
  }

  // ------------------------------------------------------- holders and clients

  /** Thread t of host `key` picks up the clients `got` (at most one) and gives back `lost`. */
  ghost predicate HandOver(s: Sys, s': Sys, t: Tid, key: Key, got: set<Client>, lost: set<Client>) {
    && !s.pool.closed && !s'.pool.closed
    && s.dialed <= s'.dialed
    && s'.threads - {t} == s.threads - {t}
    && key in s.pool.hosts.Keys + s'.pool.hosts.Keys
    && s.pool.hosts.Keys <= s'.pool.hosts.Keys <= s.pool.hosts.Keys + {key}
    && (forall k :: k in s.pool.hosts && k != key ==> s'.pool.hosts[k].active == s.pool.hosts[k].active)
    && key in s'.pool.hosts
    && s'.pool.hosts[key].active == (GetHost(s.pool, key).active - lost) + got
    && (forall k, c :: Holds(s, t, k, c) <==> k == key && c in lost)
    && (forall k, c :: Holds(s', t, k, c) <==> k == key && c in got)
    && (forall u, k, c :: c in got ==> !Holds(s, u, k, c) && c < s'.dialed)
  }

  lemma OwnedHandOver(s: Sys, s': Sys, t: Tid, key: Key, got: set<Client>, lost: set<Client>)
    requires Owned(s) && HandOver(s, s', t, key, got, lost)
    ensures Owned(s')
  {
    forall u, k, c | u != t ensures Holds(s', u, k, c) <==> Holds(s, u, k, c) {
      assert u in s.threads <==> u in s.threads - {t};
      assert u in s'.threads <==> u in s'.threads - {t};
    }
    forall u, k, c | Holds(s', u, k, c) ensures k in s'.pool.hosts && c in s'.pool.hosts[k].active {
      if u != t {
        assert Holds(s, u, k, c);
        assert Holds(s, t, key, c) ==> k != key;
      }
    }
    forall k, c | k in s'.pool.hosts && c in s'.pool.hosts[k].active ensures exists u :: Holds(s', u, k, c) {
      if k == key && c in got {
        assert Holds(s', t, k, c);
      } else {
        assert k in s.pool.hosts && c in s.pool.hosts[k].active;
        var u :| Holds(s, u, k, c);
        assert u != t;
        assert Holds(s', u, k, c);
      }
    }
  }

  /** The client a reservation would reuse is not held by anyone. */
  lemma IdleIsNotHeld(s: Sys, key: Key, h: Host, gone: seq<Client>, o: Options)
    requires Reaped(s, key, h, gone, o) && !s.pool.closed && |h.idle| > 0
    requires ClientsPlaced(s) && Owned(s)
    ensures var c := h.idle[|h.idle| - 1].client;
            c < s.dialed && forall u, k :: !Holds(s, u, k, c)
  {
    var c := h.idle[|h.idle| - 1].client;
    assert c in IdleClients(h.idle);
    assert c in HostClients(GetHost(s.pool, key));
    forall k | k in s.pool.hosts ensures c !in s.pool.hosts[k].active {
      if k != key { assert HostClients(s.pool.hosts[k]) !! HostClients(s.pool.hosts[key]); }
    }
  }

  lemma AcquireHands(s: Sys, t: Tid, key: Key, h: Host, gone: seq<Client>, got: set<Client>, o: Options)
    requires t !in s.threads && !s.pool.closed && h.active == GetHost(s.pool, key).active
    requires got == if |h.idle| > 0 then {h.idle[|h.idle| - 1].client} else {}
    requires forall u, k, c :: c in got ==> !Holds(s, u, k, c) && c < s.dialed
    ensures HandOver(s, AcquireReaped(s, t, key, h, gone, o), t, key, got, {})
  {
    var s' := AcquireReaped(s, t, key, h, gone, o);
    assert s'.threads - {t} == s.threads - {t};
    assert s'.pool.hosts[key].active == GetHost(s.pool, key).active - {} + got;
  }

  lemma OwnedAcquire(s: Sys, t: Tid, key: Key, h: Host, gone: seq<Client>, o: Options)
    requires t !in s.threads && Reaped(s, key, h, gone, o) && !s.pool.closed
    requires ClientsPlaced(s) && Owned(s)
    ensures Owned(AcquireReaped(s, t, key, h, gone, o))
  {
    var got := if |h.idle| > 0 then {h.idle[|h.idle| - 1].client} else {};
    if |h.idle| > 0 { IdleIsNotHeld(s, key, h, gone, o); }
    AcquireHands(s, t, key, h, gone, got, o);
    OwnedHandOver(s, AcquireReaped(s, t, key, h, gone, o), t, key, got, {});
  }

  lemma OwnedDialOk(s: Sys, t: Tid)
    requires Enabled(s, DialOk(t)) && s.threads[t].key in s.pool.hosts && Owned(s)
    ensures Owned(ApplyDialOk(s, t))
  {
    var s', key := ApplyDialOk(s, t), s.threads[t].key;
    if s.pool.closed {
      OwnedDrop(s, s', t);
    } else {
      assert s'.threads - {t} == s.threads - {t};
      OwnedHandOver(s, s', t, key, {s.dialed}, {});
    }
  }

  lemma OwnedDialFail(s: Sys, t: Tid, o: Options)
    requires Enabled(s, DialFail(t)) && s.threads[t].key in s.pool.hosts && Owned(s)
    ensures Owned(Apply(s, DialFail(t), o))
  {
    var s', key := Apply(s, DialFail(t), o), s.threads[t].key;
    if s.pool.closed {
      OwnedDrop(s, s', t);
    } else {
      assert s'.threads - {t} == s.threads - {t};
      OwnedHandOver(s, s', t, key, {}, {});
    }
  }

  lemma OwnedRelease(s: Sys, t: Tid, now: Time, o: Options)
    requires Enabled(s, ReleaseHeld(t, now)) && s.threads[t].key in s.pool.hosts && Owned(s)
    ensures Owned(Apply(s, ReleaseHeld(t, now), o))
  {
    var s', key, c := Apply(s, ReleaseHeld(t, now), o), s.threads[t].key, s.threads[t].client;
    assert Holds(s, t, key, c);
    if s.pool.closed {
      OwnedDrop(s, s', t);
    } else {
      assert s'.threads - {t} == s.threads - {t};
      OwnedHandOver(s, s', t, key, {}, {c});
    }
  }

  lemma OwnedStep(s: Sys, st: Step, o: Options)
    requires Core(s, o) && Owned(s) && Enabled(s, st) && Harmless(s, st)
    ensures Owned(Apply(s, st, o))
  {
    var s' := Apply(s, st, o);
    match st
    case AcquireStep(t, key, now) =>
      if s.pool.closed {
        ClosedAcquire(s, t, key, now, o);
      } else {
        ReapedForReserve(s, key, now, o);
        var h0 := GetHost(s.pool, key);
        OwnedAcquire(s, t, key, ReapHost(h0, now, o), Expired(h0.idle, now, o), o);
      }
    case DialOk(t) => OwnedDialOk(s, t);
    case DialFail(t) => OwnedDialFail(s, t, o);
    case ReleaseHeld(t, now) => OwnedRelease(s, t, now, o);
    case StrayRelease(_, _, _) => HarmlessIsNoOp(s, st, o);
    case Reap(now) => OwnedSame(s, s');
    case CloseStep => OwnedSame(s, s');
    case Signal(ch) => OwnedSame(s, s');
    case CloseClient(c) => OwnedSame(s, s');
    case WakeNotified(t) => OwnedWake(s, s', t);
    case WakeCancelled(t) => OwnedWake(s, s', t);
    case WakeDone(t) => OwnedWake(s, s', t);
  }

  lemma OwnedDrop(s: Sys, s': Sys, t: Tid)
    requires Owned(s) && s'.pool.closed && s'.threads == s.threads - {t} && s.dialed <= s'.dialed
    ensures Owned(s')
  {
    assert forall u, k, c :: Holds(s', u, k, c) ==> Holds(s, u, k, c);
  }

  lemma OwnedWake(s: Sys, s': Sys, t: Tid)
    requires Owned(s) && s'.pool == s.pool && s'.dialed == s.dialed
    requires t in s.threads && s.threads[t].Waiting? && s'.threads == s.threads - {t}
    ensures Owned(s')
  {
    assert forall u, k, c :: Holds(s', u, k, c) <==> Holds(s, u, k, c);
  }

  lemma OwnedSame(s: Sys, s': Sys)
    requires Owned(s) && s'.threads == s.threads && s'.dialed == s.dialed && s'.pool.hosts.Keys == s.pool.hosts.Keys
    requires s.pool.closed ==> s'.pool.closed
    requires !s'.pool.closed ==> forall k :: k in s.pool.hosts ==> s'.pool.hosts[k].active == s.pool.hosts[k].active
    ensures Owned(s')
  {
    assert forall u, k, c :: Holds(s', u, k, c) <==> Holds(s, u, k, c);
  }

  // ---------------------------------------------------------------- theorems

  lemma {:induction false} CoreRun(s: Sys, steps: seq<Step>, o: Options, s': Sys)
    requires RunFrom(s, steps, o, s') && Core(s, o)
    ensures Core(s', o)
    decreases |steps|
  {
    if steps != [] {
      CoreStep(s, steps[0], o);
      CoreRun(Apply(s, steps[0], o), steps[1..], o, s');
    }
  }

  lemma {:induction false} OwnershipRun(s: Sys, steps: seq<Step>, o: Options, s': Sys)
    requires RunFrom(s, steps, o, s') && Disciplined(s, steps, o)
    requires Core(s, o) && Owned(s) && Conserved(s)
    ensures Core(s', o) && Owned(s') && Conserved(s')
    decreases |steps|
  {
    if steps != [] {
      CoreStep(s, steps[0], o);
      OwnedStep(s, steps[0], o);
      ConservedStep(s, steps[0], o);
      OwnershipRun(Apply(s, steps[0], o), steps[1..], o, s');
    }
  }

  /** Under any interleaving, stray and repeated releases included, an open pool's
      per-host count is exact and never exceeds the cap. */
  lemma AccountingHolds(steps: seq<Step>, o: Options, s: Sys, k: Key)
    requires RunFrom(INIT, steps, o, s) && !s.pool.closed && k in s.pool.hosts
    ensures var h := s.pool.hosts[k];
            && h.total == |h.idle| + |h.active| + |Dials(s.threads, k)|
            && 0 <= h.total <= o.maxPerHost
  {
    CoreRun(INIT, steps, o, s);
    assert HostAccounted(s, k, o);
  }

  /** No lost wake-up: a parked thread's channel is closed or some thread still owes
      the close, or the pool is closed, or the host has no free slot at all: nothing
      idle and all `maxPerHost` connections in use or being dialed. */
  lemma NoLostWakeup(steps: seq<Step>, o: Options, s: Sys, t: Tid)
    requires RunFrom(INIT, steps, o, s) && t in s.threads && s.threads[t].Waiting?
    ensures var k, ch := s.threads[t].key, Chan(s.threads[t].key, s.threads[t].gen);
            || ch in s.signalled
            || ch in s.owed
            || (&& !s.pool.closed && k in s.pool.hosts
                && ch.gen == s.pool.hosts[k].gen
                && s.pool.hosts[k].idle == []
                && |s.pool.hosts[k].active| + |Dials(s.threads, k)| == o.maxPerHost)
  {
    CoreRun(INIT, steps, o, s);
    assert WaiterCovered(s, t, o);
    var k, ch := s.threads[t].key, Chan(s.threads[t].key, s.threads[t].gen);
    if ch.gen < s.pool.hosts[k].gen {
      assert ch in s.signalled + s.owed;
    } else {
      assert HostAccounted(s, k, o);
    }
  }

  /** A thread that is parked with no wake-up under way waits for another thread
      that holds or is dialing a connection of the same host. */
  lemma ParkedThreadHasAWaker(steps: seq<Step>, o: Options, s: Sys, t: Tid)
    requires RunFrom(INIT, steps, o, s) && Disciplined(INIT, steps, o)
    requires t in s.threads && s.threads[t].Waiting?
    requires Chan(s.threads[t].key, s.threads[t].gen) !in s.signalled + s.owed
    ensures exists u :: u in s.threads && u != t && s.threads[u].key == s.threads[t].key
                     && (s.threads[u].Holding? || s.threads[u].Dialing?)
  {
    NoLostWakeup(steps, o, s, t);
    InitOwned();
    OwnershipRun(INIT, steps, o, s);
    var k := s.threads[t].key;
    var h := s.pool.hosts[k];
    if h.active != {} {
      var c :| c in h.active;
      var u :| Holds(s, u, k, c);
      assert u != t;
    } else {
      assert |h.active| == 0;
      assert Dials(s.threads, k) != {};
      var u :| u in Dials(s.threads, k);
      assert u != t;
    }
  }

  lemma InitOwned()
    ensures forall o :: Core(INIT, o)
    ensures Owned(INIT) && Conserved(INIT)
  {
    assert AllClients(INIT.pool) == {};
  }

  /** Whatever frees a slot of a host wakes every thread parked there: after it, the
      close of each waiter's channel is done or owed. */
  lemma FreeingASlotWakesAll(steps: seq<Step>, o: Options, s: Sys, st: Step, t: Tid)
    requires RunFrom(INIT, steps, o, s) && Disciplined(INIT, steps, o) && Enabled(s, st) && !s.pool.closed
    requires t in s.threads && s.threads[t].Waiting?
    requires st.DialFail? || st.ReleaseHeld?
    requires s.threads[st.t].key == s.threads[t].key
    ensures Chan(s.threads[t].key, s.threads[t].gen) in Apply(s, st, o).signalled + Apply(s, st, o).owed
  {
    InitOwned();
    OwnershipRun(INIT, steps, o, s);
    CoreStep(s, st, o);
    FreeingSupersedes(s, st, o);
    var s', k := Apply(s, st, o), s.threads[t].key;
    assert WaiterCovered(s, t, o);
    assert Chan(k, s.threads[t].gen).gen < s'.pool.hosts[k].gen;
  }

  lemma FreeingSupersedes(s: Sys, st: Step, o: Options)
    requires Core(s, o) && Owned(s) && !s.pool.closed && Enabled(s, st) && (st.DialFail? || st.ReleaseHeld?)
    ensures var k := s.threads[st.t].key;
            k in s.pool.hosts && k in Apply(s, st, o).pool.hosts
            && Apply(s, st, o).pool.hosts[k].gen == s.pool.hosts[k].gen + 1
  {
    var k := s.threads[st.t].key;
    assert HostAccounted(s, k, o);
    if st.DialFail? {
      assert st.t in Dials(s.threads, k);
    } else {
      assert Holds(s, st.t, k, s.threads[st.t].client);
    }
  }

  /** A close that is owed wakes the thread waiting for it: the close can be made, after it the thread
      can leave its wait, not before, and then ask for a connection again. */
  lemma OwedCloseWakes(s: Sys, t: Tid, key: Key, now: Time, o: Options)
    requires t in s.threads && s.threads[t].Waiting? && s.owed !! s.signalled
    requires Chan(s.threads[t].key, s.threads[t].gen) in s.owed
    ensures var ch := Chan(s.threads[t].key, s.threads[t].gen);
            && !Enabled(s, WakeNotified(t)) && Enabled(s, Signal(ch))
            && var s1 := Apply(s, Signal(ch), o);
               Enabled(s1, WakeNotified(t)) && Enabled(Apply(s1, WakeNotified(t), o), AcquireStep(t, key, now))
  {
  }

  /** A client released into a closed pool is closed after unlocking. */
  lemma ReleasedIntoClosedIsDoomed(s: Sys, key: Key, c: Client, now: Time)
    requires key in s.pool.hosts && c in s.pool.hosts[key].active
    ensures s.pool.closed ==> ApplyRelease(s, key, c, now).doomed == s.doomed + {c}
    ensures !s.pool.closed ==> ApplyRelease(s, key, c, now).doomed == s.doomed
    ensures Chan(key, s.pool.hosts[key].gen) in ApplyRelease(s, key, c, now).owed
  {
  }

  /** No channel is closed twice, which in Go would panic: neither a pending close nor
      a channel still installed in a host was closed before. */
  lemma NoDoubleClose(steps: seq<Step>, o: Options, s: Sys)
    requires RunFrom(INIT, steps, o, s)
    ensures s.owed !! s.signalled
    ensures CurrentChans(s.pool) !! s.signalled + s.owed
  {
    CoreRun(INIT, steps, o, s);
  }

  /** With one Release per Acquire no client is held twice, every held client of an open
      pool is active in its host and not idle anywhere, and every dialed client is in
      exactly one place: idle, active, about to be closed, or closed. */
  lemma ClientsAreOwnedOnce(steps: seq<Step>, o: Options, s: Sys)
    requires RunFrom(INIT, steps, o, s) && Disciplined(INIT, steps, o)
    ensures forall t, u, k, j, c :: Holds(s, t, k, c) && Holds(s, u, j, c) ==> t == u && k == j
    ensures !s.pool.closed ==> forall t, k, c :: Holds(s, t, k, c) ==> k in s.pool.hosts && c in s.pool.hosts[k].active
    ensures forall c: Client :: c < s.dialed ==> |Places(s, c)| == 1
  {
    InitOwned();
    OwnershipRun(INIT, steps, o, s);
    forall c: Client | c < s.dialed ensures |Places(s, c)| == 1 {
      var p := OnePlace(s, c, o);
    }
  }

  datatype Place = InIdle(k: Key, i: nat) | InActive(k: Key) | Doomed | Dead

  function Places(s: Sys, c: Client): set<Place> {
    (set k, i | k in s.pool.hosts && 0 <= i < |s.pool.hosts[k].idle| && s.pool.hosts[k].idle[i].client == c
       :: InIdle(k, i))
    + (set k | k in s.pool.hosts && c in s.pool.hosts[k].active :: InActive(k))
    + (if c in s.doomed then {Doomed} else {})
    + (if c in s.dead then {Dead} else {})
  }

  lemma PlaceInPool(s: Sys, c: Client, p: Place)
    requires p in Places(s, c) && (p.InIdle? || p.InActive?)
    ensures p.k in s.pool.hosts && c in HostClients(s.pool.hosts[p.k]) && c in AllClients(s.pool)
    ensures PlaceInHost(s.pool.hosts[p.k], c, p)
  {
    if p.InIdle? {
      assert s.pool.hosts[p.k].idle[p.i].client in IdleClients(s.pool.hosts[p.k].idle);
    }
  }

  lemma OnePlace(s: Sys, c: Client, o: Options) returns (p: Place)
    requires Core(s, o) && Conserved(s) && c < s.dialed
    ensures Places(s, c) == {p}
  {
    forall q | q in Places(s, c) && (q.InIdle? || q.InActive?)
      ensures q.k in s.pool.hosts && c in HostClients(s.pool.hosts[q.k]) && c in AllClients(s.pool)
    {
      PlaceInPool(s, c, q);
    }
    if c in s.doomed {
      p := Doomed;
    } else if c in s.dead {
      p := Dead;
    } else {
      assert c in AllClients(s.pool);
      var k :| k in s.pool.hosts && c in HostClients(s.pool.hosts[k]);
      p := PlaceInside(s, c, k, o);
    }
  }

  lemma PlaceInside(s: Sys, c: Client, k: Key, o: Options) returns (p: Place)
    requires k in s.pool.hosts && c in HostClients(s.pool.hosts[k]) && HostAccounted(s, k, o) && ClientsPlaced(s)
    requires c !in s.doomed && c !in s.dead
    ensures Places(s, c) == {p}
  {
    var h := s.pool.hosts[k];
    if c in h.active {
      p := InActive(k);
    } else {
      var i :| 0 <= i < |h.idle| && h.idle[i].client == c;
      p := InIdle(k, i);
    }
    OnlyPlace(s, c, k, p, o);
  }

  lemma OnlyPlace(s: Sys, c: Client, k: Key, p: Place, o: Options)
    requires k in s.pool.hosts && HostAccounted(s, k, o) && ClientsPlaced(s)
    requires c !in s.doomed && c !in s.dead
    requires p in Places(s, c) && (p == InActive(k) || (p.InIdle? && p.k == k))
    ensures Places(s, c) == {p}
  {
    forall q | q in Places(s, c) ensures q == p { NoOtherPlace(s, c, k, p, q, o); }
  }

  lemma NoOtherPlace(s: Sys, c: Client, k: Key, p: Place, q: Place, o: Options)
    requires k in s.pool.hosts && HostAccounted(s, k, o) && ClientsPlaced(s)
    requires p in Places(s, c) && (p == InActive(k) || (p.InIdle? && p.k == k))
    requires q in Places(s, c) && (q.InIdle? || q.InActive?)
    ensures q == p
  {
    PlaceInPool(s, c, p);
    PlaceInPool(s, c, q);
    assert q.k == k;
    SamePlace(s.pool.hosts[k], c, p, q);
  }

  /** Place q holds client c within host h. */
  ghost predicate PlaceInHost(h: Host, c: Client, q: Place) {
    match q
    case InIdle(_, i) => i < |h.idle| && h.idle[i].client == c
    case InActive(_) => c in h.active
    case _ => false
  }

  lemma SamePlace(h: Host, c: Client, p: Place, q: Place)
    requires Distinct(h.idle) && IdleClients(h.idle) !! h.active
    requires PlaceInHost(h, c, p) && PlaceInHost(h, c, q) && p.k == q.k
    ensures p == q
  {
    if q.InIdle? { assert h.idle[q.i].client in IdleClients(h.idle); }
    if p.InIdle? { assert h.idle[p.i].client in IdleClients(h.idle); }
  }

  /** Once closed, a pool stays closed with nothing idle or active, and no Acquire
      ever succeeds again: a thread that holds a client held it before. */
  lemma {:induction false} ClosedForever(s: Sys, steps: seq<Step>, o: Options, s': Sys)
    requires RunFrom(s, steps, o, s') && Core(s, o) && s.pool.closed
    ensures s'.pool.closed && HostsClosed(s')
    ensures forall t, k, c :: Holds(s', t, k, c) ==> Holds(s, t, k, c)
    decreases |steps|
  {
    if steps != [] {
      var s1 := Apply(s, steps[0], o);
      CoreStep(s, steps[0], o);
      ClosedStep(s, steps[0], o);
      ClosedForever(s1, steps[1..], o, s');
    }
  }

  lemma ClosedStep(s: Sys, st: Step, o: Options)
    requires Core(s, o) && s.pool.closed && Enabled(s, st)
    ensures Apply(s, st, o).pool.closed
    ensures forall t, k, c :: Holds(Apply(s, st, o), t, k, c) ==> Holds(s, t, k, c)
  {
    match st
    case AcquireStep(t, key, now) => ClosedAcquire(s, t, key, now, o);
    case StrayRelease(key, client, now) => CoreRelease(s, key, client, now, o);
    case _ =>
  }

  // ------------------------------------------------------------- how old a reused client is

  type Releases = map<Client, Time>

  /** A release of c, if it returns it to an open pool. */
  function NotedRelease(s: Sys, k: Key, c: Client, now: Time, last: Releases): Releases {
    if !s.pool.closed && k in s.pool.hosts && c in s.pool.hosts[k].active then last[c := now] else last
  }

  function Noted(s: Sys, st: Step, last: Releases): Releases
    requires Enabled(s, st)
  {
    match st
    case ReleaseHeld(t, now) => NotedRelease(s, s.threads[t].key, s.threads[t].client, now, last)
    case StrayRelease(k, c, now) => NotedRelease(s, k, c, now, last)
    case _ => last
  }

  /** The time of each client's latest release along a run. */
  ghost function LastReleases(s: Sys, steps: seq<Step>, o: Options, last: Releases): Releases
    decreases |steps|
  {
    if steps == [] || !Enabled(s, steps[0]) then last
    else LastReleases(Apply(s, steps[0], o), steps[1..], o, Noted(s, steps[0], last))
  }

  /** Every idle client carries the time of its latest release. */
  ghost predicate Stamped(s: Sys, last: Releases) {
    forall k :: k in s.pool.hosts ==> StampedHost(s.pool.hosts[k].idle, last)
  }

  ghost predicate StampedHost(idle: seq<Idle>, last: Releases) {
    forall e :: e in idle ==> e.client in last && last[e.client] == e.lastUsed
  }

  lemma StampedReap(idle: seq<Idle>, last: Releases, now: Time, o: Options)
    requires StampedHost(idle, last)
    ensures StampedHost(Fresh(idle, now, o), last)
  {
    ReapPartitions(idle, now, o);
  }

  lemma StampedAcquire(s: Sys, t: Tid, key: Key, now: Time, o: Options, last: Releases)
    requires Stamped(s, last) && t !in s.threads
    ensures Stamped(ApplyAcquire(s, t, key, now, o), last)
  {
    var h := GetHost(s.pool, key);
    StampedReap(h.idle, last, now, o);
  }

  lemma StampedRelease(s: Sys, k: Key, c: Client, now: Time, o: Options, last: Releases)
    requires Core(s, o) && Stamped(s, last)
    requires !s.pool.closed && k in s.pool.hosts && c in s.pool.hosts[k].active
    ensures Stamped(ApplyRelease(s, k, c, now), last[c := now])
  {
    var s', last' := ApplyRelease(s, k, c, now), last[c := now];
    forall j | j in s'.pool.hosts ensures StampedHost(s'.pool.hosts[j].idle, last') {
      NotIdleElsewhere(s, k, c, j, o);
      assert StampedHost(s.pool.hosts[j].idle, last);
    }
  }

  /** An active client is idle nowhere. */
  lemma NotIdleElsewhere(s: Sys, k: Key, c: Client, j: Key, o: Options)
    requires Core(s, o) && !s.pool.closed && k in s.pool.hosts && c in s.pool.hosts[k].active && j in s.pool.hosts
    ensures forall e :: e in s.pool.hosts[j].idle ==> e.client != c
  {
    assert HostAccounted(s, k, o);
    var idle := s.pool.hosts[j].idle;
    forall e | e in idle ensures e.client != c {
      var i :| 0 <= i < |idle| && idle[i] == e;
      assert idle[i].client in IdleClients(idle);
      if j != k { assert HostClients(s.pool.hosts[k]) !! HostClients(s.pool.hosts[j]); }
    }
  }

  lemma StampedStep(s: Sys, st: Step, o: Options, last: Releases)
    requires Core(s, o) && Stamped(s, last) && Enabled(s, st)
    ensures Stamped(Apply(s, st, o), Noted(s, st, last))
  {
    match st
    case AcquireStep(t, key, now) => StampedAcquire(s, t, key, now, o, last);
    case ReleaseHeld(t, now) => StampedReturn(s, s.threads[t].key, s.threads[t].client, now, o, last);
    case StrayRelease(k, c, now) => StampedReturn(s, k, c, now, o, last);
    case Reap(now) => StampedReapAll(s, now, o, last);
    case DialOk(t) => StampedDial(s, t, last);
    case DialFail(t) => StampedDialFail(s, t, o, last);
    case CloseStep => StampedClose(s, o, last);
    case _ =>
  }

  lemma StampedReapAll(s: Sys, now: Time, o: Options, last: Releases)
    requires Stamped(s, last)
    ensures Stamped(Apply(s, Reap(now), o), last)
  {
    forall k | k in s.pool.hosts ensures StampedHost(ReapHost(s.pool.hosts[k], now, o).idle, last) {
      StampedReap(s.pool.hosts[k].idle, last, now, o);
    }
  }

  lemma StampedDial(s: Sys, t: Tid, last: Releases)
    requires Stamped(s, last) && t in s.threads && s.threads[t].Dialing?
    ensures Stamped(ApplyDialOk(s, t), last)
  {
    var s' := ApplyDialOk(s, t);
    forall k | k in s'.pool.hosts ensures StampedHost(s'.pool.hosts[k].idle, last) {
      assert s'.pool.hosts[k].idle == GetHost(s.pool, k).idle;
    }
  }

  lemma StampedDialFail(s: Sys, t: Tid, o: Options, last: Releases)
    requires Stamped(s, last) && Enabled(s, DialFail(t))
    ensures Stamped(Apply(s, DialFail(t), o), last)
  {
    var s' := Apply(s, DialFail(t), o);
    forall k | k in s'.pool.hosts ensures StampedHost(s'.pool.hosts[k].idle, last) {
      assert s'.pool.hosts[k].idle == s.pool.hosts[k].idle;
    }
  }

  lemma StampedClose(s: Sys, o: Options, last: Releases)
    requires Stamped(s, last)
    ensures Stamped(Apply(s, CloseStep, o), last)
  {
  }

  lemma StampedReturn(s: Sys, k: Key, c: Client, now: Time, o: Options, last: Releases)
    requires Core(s, o) && Stamped(s, last)
    ensures Stamped(ApplyRelease(s, k, c, now), NotedRelease(s, k, c, now, last))
  {
    if !s.pool.closed && k in s.pool.hosts && c in s.pool.hosts[k].active {
      StampedRelease(s, k, c, now, o, last);
    } else {
      assert s.pool.closed && k in s.pool.hosts ==> s.pool.hosts[k].active == {};
      assert ApplyRelease(s, k, c, now).pool == s.pool;
    }
  }

  lemma {:induction false} StampedRun(s: Sys, steps: seq<Step>, o: Options, s': Sys, last: Releases)
    requires RunFrom(s, steps, o, s') && Core(s, o) && Stamped(s, last)
    ensures Stamped(s', LastReleases(s, steps, o, last))
    decreases |steps|
  {
    if steps != [] {
      CoreStep(s, steps[0], o);
      StampedStep(s, steps[0], o, last);
      StampedRun(Apply(s, steps[0], o), steps[1..], o, s', Noted(s, steps[0], last));
    }
  }

  /** Over every run, stray releases included: a client Acquire takes from the idle list was last
      released at most IdleTimeout before. */
  lemma ReusedWasReleasedRecently(steps: seq<Step>, o: Options, s: Sys, t: Tid, key: Key, now: Time, c: Client)
    requires RunFrom(INIT, steps, o, s) && Enabled(s, AcquireStep(t, key, now))
    requires Holds(Apply(s, AcquireStep(t, key, now), o), t, key, c)
    ensures var last := LastReleases(INIT, steps, o, map[]);
            c in last && now - last[c] <= o.idleTimeout
  {
    CoreRun(INIT, steps, o, s);
    StampedRun(INIT, steps, o, s, map[]);
    ReusedClientIsFresh(s.pool, key, now, o);
    assert StampedHost(s.pool.hosts[key].idle, LastReleases(INIT, steps, o, map[]));
  }

  /** The dials of host k that land along a run. */
  ghost function Landed(s: Sys, steps: seq<Step>, o: Options, k: Key): nat
    decreases |steps|
  {
    if steps == [] || !Enabled(s, steps[0]) then 0
    else
      (if steps[0].DialOk? && s.threads[steps[0].t].key == k then 1 else 0)
      + Landed(Apply(s, steps[0], o), steps[1..], o, k)
  }

  lemma ClosedStepTotal(s: Sys, st: Step, o: Options, k: Key)
    requires Core(s, o) && s.pool.closed && Enabled(s, st) && k in s.pool.hosts
    ensures var s' := Apply(s, st, o);
            && k in s'.pool.hosts
            && s'.pool.hosts[k].total
               == s.pool.hosts[k].total - if st.DialOk? && s.threads[st.t].key == k then 1 else 0
  {
    match st
    case AcquireStep(t, key, now) => ClosedAcquire(s, t, key, now, o);
    case Reap(now) => assert ReapHost(s.pool.hosts[k], now, o) == s.pool.hosts[k];
    case _ =>
  }

  lemma {:induction false} ClosedTotal(s: Sys, steps: seq<Step>, o: Options, s': Sys, k: Key)
    requires RunFrom(s, steps, o, s') && Core(s, o) && s.pool.closed && k in s.pool.hosts
    ensures k in s'.pool.hosts && s'.pool.hosts[k].total == s.pool.hosts[k].total - Landed(s, steps, o, k)
    decreases |steps|
  {
    if steps != [] {
      CoreStep(s, steps[0], o);
      ClosedStep(s, steps[0], o);
      ClosedStepTotal(s, steps[0], o, k);
      ClosedTotal(Apply(s, steps[0], o), steps[1..], o, s', k);
    }
  }

  /** After Close a host's count is minus the number of its dials that landed since: below zero
      exactly when some did. */
  lemma TotalAfterClose(steps: seq<Step>, s: Sys, later: seq<Step>, s': Sys, o: Options, k: Key)
    requires RunFrom(INIT, steps, o, s) && !s.pool.closed && k in s.pool.hosts
    requires RunFrom(Apply(s, CloseStep, o), later, o, s')
    ensures k in s'.pool.hosts && s'.pool.hosts[k].total == 0 - Landed(Apply(s, CloseStep, o), later, o, k)
  {
    CoreRun(INIT, steps, o, s);
    CoreStep(s, CloseStep, o);
    ClosedTotal(Apply(s, CloseStep, o), later, o, s', k);
  }

  lemma {:induction false} RunAppend(s: Sys, a: seq<Step>, o: Options, m: Sys, b: seq<Step>, s': Sys)
    requires RunFrom(s, a, o, m) && RunFrom(m, b, o, s')
    ensures RunFrom(s, a + b, o, s')
    decreases |a|
  {
    if a == [] {
      assert a + b == b;
    } else {
      RunAppend(Apply(s, a[0], o), a[1..], o, m, b, s');
      assert (a + b)[1..] == a[1..] + b;
    }
  }

  lemma RunThree(s: Sys, a: Step, b: Step, c: Step, o: Options, s1: Sys, s2: Sys, s3: Sys)
    requires Enabled(s, a) && s1 == Apply(s, a, o) && Enabled(s1, b) && s2 == Apply(s1, b, o)
    requires Enabled(s2, c) && s3 == Apply(s2, c, o)
    ensures RunFrom(s, [a, b, c], o, s3)
  {
    var steps := [a, b, c];
    assert steps[1..] == [b, c] && steps[1..][1..] == [c] && steps[1..][1..][1..] == [];
    assert RunFrom(s3, [], o, s3);
    assert RunFrom(s2, [c], o, s3);
    assert RunFrom(s1, [b, c], o, s3);
  }

  /** The documented no-op claim for a second Release fails once the client was handed out again in
      between: a run from the start that ends with two threads holding the same client. */
  lemma StaleReleaseGivesTwoHolders(k: Key, o: Options)
    ensures exists s :: RunFrom(INIT, [AcquireStep(0, k, 0), DialOk(0), ReleaseHeld(0, 0)]
                                      + ([AcquireStep(1, k, 0)] + [StrayRelease(k, 0, 0)] + [AcquireStep(2, k, 0)]),
                                o, s)
                     && Holds(s, 1, k, 0) && Holds(s, 2, k, 0)
  {
    var s := FirstReturned(k, o);
    var s' := HandedOutTwice(s, k, o);
    RunAppend(INIT, [AcquireStep(0, k, 0), DialOk(0), ReleaseHeld(0, 0)], o, s,
              [AcquireStep(1, k, 0)] + [StrayRelease(k, 0, 0)] + [AcquireStep(2, k, 0)], s');
  }

  lemma HandedOutTwice(s: Sys, k: Key, o: Options) returns (s': Sys)
    requires !s.pool.closed && s.threads == map[] && s.dialed == 1 && k in s.pool.hosts
    requires s.pool.hosts[k].idle == [Idle(0, 0)] && s.pool.hosts[k].active == {}
    ensures RunFrom(s, [AcquireStep(1, k, 0)] + [StrayRelease(k, 0, 0)] + [AcquireStep(2, k, 0)], o, s')
    ensures Holds(s', 1, k, 0) && Holds(s', 2, k, 0)
  {
    var b := LentAndTakenBack(s, k, o);
    s' := Reacquire(b, 2, k, o);
    RunAppend(s, [AcquireStep(1, k, 0)] + [StrayRelease(k, 0, 0)], o, b, [AcquireStep(2, k, 0)], s');
  }

  lemma LentAndTakenBack(s: Sys, k: Key, o: Options) returns (s': Sys)
    requires !s.pool.closed && s.threads == map[] && s.dialed == 1 && k in s.pool.hosts
    requires s.pool.hosts[k].idle == [Idle(0, 0)] && s.pool.hosts[k].active == {}
    ensures RunFrom(s, [AcquireStep(1, k, 0)] + [StrayRelease(k, 0, 0)], o, s')
    ensures !s'.pool.closed && s'.threads == map[1 := Holding(k, 0)] && k in s'.pool.hosts
    ensures s'.pool.hosts[k].idle == [Idle(0, 0)] && s'.pool.hosts[k].active == {}
  {
    var a := Reacquire(s, 1, k, o);
    s' := TakenBack(a, k, o);
    RunAppend(s, [AcquireStep(1, k, 0)], o, a, [StrayRelease(k, 0, 0)], s');
  }

  lemma RunOne(s: Sys, st: Step, o: Options)
    requires Enabled(s, st)
    ensures RunFrom(s, [st], o, Apply(s, st, o))
  {
    assert [st][1..] == [];
    assert RunFrom(Apply(s, st, o), [], o, Apply(s, st, o));
  }

  /** One client dialed, used and returned. */
  lemma FirstReturned(k: Key, o: Options) returns (s: Sys)
    ensures RunFrom(INIT, [AcquireStep(0, k, 0), DialOk(0), ReleaseHeld(0, 0)], o, s)
    ensures !s.pool.closed && s.threads == map[] && s.dialed == 1 && k in s.pool.hosts
    ensures s.pool.hosts[k].idle == [Idle(0, 0)] && s.pool.hosts[k].active == {}
  {
    var s1 := Apply(INIT, AcquireStep(0, k, 0), o);
    assert ReapHost(EMPTY_HOST, 0, o) == EMPTY_HOST;
    assert s1.threads == map[0 := Dialing(k)];
    var s2 := Apply(s1, DialOk(0), o);
    assert s2.pool.hosts[k] == Host([], {0}, 1, 0) && s2.threads == map[0 := Holding(k, 0)];
    s := Apply(s2, ReleaseHeld(0, 0), o);
    RunThree(INIT, AcquireStep(0, k, 0), DialOk(0), ReleaseHeld(0, 0), o, s1, s2, s);
  }

  lemma Reacquire(s: Sys, t: Tid, k: Key, o: Options) returns (s': Sys)
    requires !s.pool.closed && t !in s.threads && k in s.pool.hosts
    requires s.pool.hosts[k].idle == [Idle(0, 0)] && s.pool.hosts[k].active == {}
    ensures RunFrom(s, [AcquireStep(t, k, 0)], o, s') && s'.threads == s.threads[t := Holding(k, 0)]
    ensures !s'.pool.closed && s'.dialed == s.dialed && k in s'.pool.hosts
    ensures s'.pool.hosts[k].idle == [] && s'.pool.hosts[k].active == {0}
  {
    var h := s.pool.hosts[k];
    ReapOne(h, o);
    var h' := Host([], {0}, h.total, h.gen);
    assert h.idle[..0] == [] && h.active + {0} == {0};
    assert ReserveReaped(s.pool, k, h, o) == (s.pool.(hosts := s.pool.hosts[k := h']), Reused(0));
    RunOne(s, AcquireStep(t, k, 0), o);
    s' := Apply(s, AcquireStep(t, k, 0), o);
    assert s' == AfterReserve(s, t, k, s.pool.(hosts := s.pool.hosts[k := h']), Reused(0), []);
  }

  lemma TakenBack(s: Sys, k: Key, o: Options) returns (s': Sys)
    requires !s.pool.closed && s.dialed == 1 && k in s.pool.hosts
    requires s.pool.hosts[k].idle == [] && s.pool.hosts[k].active == {0}
    ensures RunFrom(s, [StrayRelease(k, 0, 0)], o, s') && !s'.pool.closed && s'.threads == s.threads
    ensures k in s'.pool.hosts && s'.pool.hosts[k].idle == [Idle(0, 0)] && s'.pool.hosts[k].active == {}
  {
    RunOne(s, StrayRelease(k, 0, 0), o);
    s' := Apply(s, StrayRelease(k, 0, 0), o);
  }

  lemma ReapOne(h: Host, o: Options)
    requires h.idle == [Idle(0, 0)]
    ensures ReapHost(h, 0, o) == h && Expired(h.idle, 0, o) == []
  {
    assert h.idle[..0] == [];
    assert Fresh(h.idle[..0], 0, o) == [] && Expired(h.idle[..0], 0, o) == [];
  }

  /** The cap accounting really stops at Close: a dial that lands afterwards drives the
      count below zero. */
  lemma LateDialMakesTotalNegative(k: Key, o: Options)
    ensures exists s :: RunFrom(INIT, [AcquireStep(0, k, 0), CloseStep, DialOk(0)], o, s)
                     && k in s.pool.hosts && s.pool.hosts[k].total == -1
  {
    var s1 := Apply(INIT, AcquireStep(0, k, 0), o);
    assert ReapHost(EMPTY_HOST, 0, o) == EMPTY_HOST;
    assert s1.threads[0] == Dialing(k);
    var s2 := Apply(s1, CloseStep, o);
    assert s2.pool.hosts[k].total == 0;
    var s3 := Apply(s2, DialOk(0), o);
    RunThree(INIT, AcquireStep(0, k, 0), CloseStep, DialOk(0), o, s1, s2, s3);
  }
}
