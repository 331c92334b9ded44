/** Any number of threads driving one connection pool.

    A step is one critical section of the pool's mutex, or one of the actions a
    thread performs after unlocking: closing a superseded notify channel, closing
    a client, waking from the select in Acquire.  Dials finish in any order with
    any outcome, and the clock may show any time at every step. */
module PoolSystem {
  import opened SshPool

  type Tid = nat

  /** Where a thread inside Acquire, or between Acquire and Release, stands. */
  datatype Pc =
    | Dialing(key: Key)                  // holds a reservation, dialReserved is running
    | Waiting(key: Key, gen: nat)        // parked in the select on notify channel (key, gen)
    | Holding(key: Key, client: Client)  // Acquire returned client

  datatype Sys = Sys(
    pool: Pool,
    threads: map<Tid, Pc>,
    signalled: set<Chan>,   // notify channels already closed
    owed: set<Chan>,        // superseded channels some thread will close after unlocking
    dialed: nat,            // clients 0 .. dialed-1 were produced by the dialer
    doomed: set<Client>,    // clients some thread will close after unlocking
    dead: set<Client>)      // closed clients

  datatype Step =
    | AcquireStep(t: Tid, key: Key, now: Time)
    | DialOk(t: Tid)
    | DialFail(t: Tid)
    | ReleaseHeld(t: Tid, now: Time)
    | StrayRelease(key: Key, client: Client, now: Time)
    | Reap(now: Time)
    | CloseStep
    | Signal(ch: Chan)
    | CloseClient(client: Client)
    | WakeNotified(t: Tid)
    | WakeCancelled(t: Tid)
    | WakeDone(t: Tid)

  predicate Enabled(s: Sys, st: Step) {
    match st
    case AcquireStep(t, _, _) => t !in s.threads
    case DialOk(t) => t in s.threads && s.threads[t].Dialing?
    case DialFail(t) => t in s.threads && s.threads[t].Dialing?
    case ReleaseHeld(t, _) => t in s.threads && s.threads[t].Holding?
    case StrayRelease(_, client, _) => client < s.dialed
    case Reap(_) => true
    case CloseStep => true
    case Signal(ch) => ch in s.owed
    case CloseClient(c) => c in s.doomed
    case WakeNotified(t) =>
      t in s.threads && s.threads[t].Waiting? && Chan(s.threads[t].key, s.threads[t].gen) in s.signalled
    case WakeCancelled(t) => t in s.threads && s.threads[t].Waiting?
    case WakeDone(t) => t in s.threads && s.threads[t].Waiting? && s.pool.closed
  }

  /** The notify channels a reap of the whole pool closes. */
  function ReapedChans(p: Pool, now: Time, o: Options): set<Chan> {
    set k | k in p.hosts && Expired(p.hosts[k].idle, now, o) != [] :: Chan(k, p.hosts[k].gen)
  }

  function CurrentChans(p: Pool): set<Chan> { set k | k in p.hosts :: Chan(k, p.hosts[k].gen) }

  function Apply(s: Sys, st: Step, o: Options): Sys
    requires Enabled(s, st)
  {
    match st
    case AcquireStep(t, key, now) => ApplyAcquire(s, t, key, now, o)
    case DialOk(t) => ApplyDialOk(s, t)
    case DialFail(t) =>
      var key := s.threads[t].key;
      var (p, closed) := ReleaseReservation(s.pool, key);
      s.(pool := p, threads := s.threads - {t},
         signalled := if closed then s.signalled + {Chan(key, s.pool.hosts[key].gen)} else s.signalled)
    case ReleaseHeld(t, now) =>
      var s' := ApplyRelease(s, s.threads[t].key, s.threads[t].client, now);
      s'.(threads := s.threads - {t})
    case StrayRelease(key, client, now) => ApplyRelease(s, key, client, now)
    case Reap(now) =>
      s.(pool := ReapIdle(s.pool, now, o),
         signalled := s.signalled + ReapedChans(s.pool, now, o),
         doomed := s.doomed + ReapedClients(s.pool, now, o))
    case CloseStep =>
      if s.pool.closed then s
      else s.(pool := Close(s.pool),
              signalled := s.signalled + CurrentChans(s.pool),
              doomed := s.doomed + AllClients(s.pool))
    case Signal(ch) => s.(owed := s.owed - {ch}, signalled := s.signalled + {ch})
    case CloseClient(c) => s.(doomed := s.doomed - {c}, dead := s.dead + {c})
    case WakeNotified(t) => s.(threads := s.threads - {t})
    case WakeCancelled(t) => s.(threads := s.threads - {t})
    case WakeDone(t) => s.(threads := s.threads - {t})
  }

  function ApplyAcquire(s: Sys, t: Tid, key: Key, now: Time, o: Options): Sys {
    var (p, r, gone) := Reserve(s.pool, key, now, o);
    AfterReserve(s, t, key, p, r, gone)
  }

  /** Where the outcome of reserveOrWait sends a thread. */
  function NextPc(key: Key, r: Reservation): Pc
    requires !r.PoolClosed?
  {
    match r
    case Reused(c) => Holding(key, c)
    case MustDial => Dialing(key)
    case MustWait(gen) => Waiting(key, gen)
  }

  function AfterReserve(s: Sys, t: Tid, key: Key, p: Pool, r: Reservation, gone: seq<Client>): Sys {
    s.(pool := p,
       threads := if r.PoolClosed? then s.threads else s.threads[t := NextPc(key, r)],
       signalled := if gone == [] then s.signalled else s.signalled + {Chan(key, GetHost(s.pool, key).gen)},
       doomed := s.doomed + Elements(gone))
  }

  /** The same on an open pool, starting from the host reaped to `h`. */
  function AcquireReaped(s: Sys, t: Tid, key: Key, h: Host, gone: seq<Client>, o: Options): Sys {
    var (p, r) := ReserveReaped(s.pool, key, h, o);
    AfterReserve(s, t, key, p, r, gone)
  }

  function ApplyDialOk(s: Sys, t: Tid): Sys
    requires t in s.threads && s.threads[t].Dialing?
  {
    var key, c := s.threads[t].key, s.dialed;
    var (p, kept) := DialDone(s.pool, key, c);
    if kept then s.(pool := p, dialed := c + 1, threads := s.threads[t := Holding(key, c)])
    else s.(pool := p, dialed := c + 1, threads := s.threads - {t}, doomed := s.doomed + {c})
  }

  function ApplyRelease(s: Sys, key: Key, client: Client, now: Time): Sys {
    var (p, e) := Release(s.pool, key, client, now);
    match e
    case UnknownHost => s.(dead := s.dead + {client})
    case NotActive => s
    case Returned(close, gen) =>
      s.(pool := p, owed := s.owed + {Chan(key, gen)},
         doomed := if close then s.doomed + {client} else s.doomed)
  }

  const INIT := Sys(Pool(false, map[]), map[], {}, {}, 0, {}, {})

  /** Each step is enabled in turn, and the last one leaves s'. */
  ghost predicate RunFrom(s: Sys, steps: seq<Step>, o: Options, s': Sys)
    decreases |steps|
  {
    if steps == [] then s' == s
    else Enabled(s, steps[0]) && RunFrom(Apply(s, steps[0], o), steps[1..], o, s')
  }

  // ------------------------------------------------------------- invariants

  function Dials(threads: map<Tid, Pc>, key: Key): set<Tid> {
    set t | t in threads && threads[t] == Dialing(key)
  }

  /** Accounting, cap and client bookkeeping of one host of an open pool. */
  ghost predicate HostAccounted(s: Sys, k: Key, o: Options)
    requires k in s.pool.hosts
  {
    var h := s.pool.hosts[k];
    && h.total == |h.idle| + |h.active| + |Dials(s.threads, k)|
    && h.total <= o.maxPerHost
    && Distinct(h.idle)
    && IdleClients(h.idle) !! h.active
  }

  ghost predicate HostsClosed(s: Sys) {
    forall k :: k in s.pool.hosts ==>
      s.pool.hosts[k].idle == [] && s.pool.hosts[k].active == {} && s.pool.hosts[k].total <= 0
  }

  /** Clients in the pool were dialed, and live in one host only. */
  ghost predicate ClientsPlaced(s: Sys) {
    && (forall k, c :: k in s.pool.hosts && c in HostClients(s.pool.hosts[k]) ==> c < s.dialed)
    && (forall k, j :: k in s.pool.hosts && j in s.pool.hosts && k != j ==>
          HostClients(s.pool.hosts[k]) !! HostClients(s.pool.hosts[j]))
  }

  /** A notify channel is superseded exactly when its close is done or owed, and never both. */
  ghost predicate ChannelsOnce(s: Sys) {
    && s.signalled !! s.owed
    && (forall ch :: ch in s.signalled + s.owed <==> ch.key in s.pool.hosts && ch.gen < s.pool.hosts[ch.key].gen)
  }

  ghost predicate Saturated(h: Host, o: Options) { h.idle == [] && h.total == o.maxPerHost }

  /** A parked thread sits on the current channel of a saturated host, or its wake-up is under way. */
  ghost predicate WaiterCovered(s: Sys, t: Tid, o: Options)
    requires t in s.threads && s.threads[t].Waiting?
  {
    var k, g := s.threads[t].key, s.threads[t].gen;
    && k in s.pool.hosts
    && g <= s.pool.hosts[k].gen
    && (!s.pool.closed && g == s.pool.hosts[k].gen ==> Saturated(s.pool.hosts[k], o))
    && (s.pool.closed ==> g < s.pool.hosts[k].gen)
  }

  ghost predicate Waiters(s: Sys, o: Options) {
    && (forall t :: t in s.threads ==> s.threads[t].key in s.pool.hosts)
    && (forall t :: t in s.threads && s.threads[t].Waiting? ==> WaiterCovered(s, t, o))
  }

  /** Kept by every step, stray releases included. */
  ghost predicate Core(s: Sys, o: Options) {
    && (if s.pool.closed then HostsClosed(s) else forall k :: k in s.pool.hosts ==> HostAccounted(s, k, o))
    && ClientsPlaced(s)
    && ChannelsOnce(s)
    && Waiters(s, o)
  }

  // ---------------------------------------------------------- counting dials

  lemma DialsUpdate(threads: map<Tid, Pc>, t: Tid, pc: Pc, k: Key)
    ensures var before := |Dials(threads, k)| - (if t in threads && threads[t] == Dialing(k) then 1 else 0);
            |Dials(threads[t := pc], k)| == before + if pc == Dialing(k) then 1 else 0
  {
    var rest := Dials(threads, k) - {t};
    assert Dials(threads[t := pc], k) == if pc == Dialing(k) then rest + {t} else rest;
    assert Dials(threads, k) == if t in threads && threads[t] == Dialing(k) then rest + {t} else rest;
  }

  lemma DialsRemove(threads: map<Tid, Pc>, t: Tid, k: Key)
    ensures |Dials(threads - {t}, k)|
            == |Dials(threads, k)| - (if t in threads && threads[t] == Dialing(k) then 1 else 0)
  {
    var rest := Dials(threads, k) - {t};
    assert Dials(threads - {t}, k) == rest;
    assert Dials(threads, k) == if t in threads && threads[t] == Dialing(k) then rest + {t} else rest;
  }

  // -------------------------------------------- what a one-host step must show

  /** Only host `key` changed, and threads other than `moved` stand where they stood. */
  ghost predicate OneHost(s: Sys, s': Sys, key: Key, moved: set<Tid>) {
    && s'.pool.closed == s.pool.closed
    && s'.pool.hosts.Keys == s.pool.hosts.Keys + {key}
    && (forall k :: k in s.pool.hosts && k != key ==> s'.pool.hosts[k] == s.pool.hosts[k])
    && s'.threads - moved == s.threads - moved
    && (forall t :: t in moved && t in s.threads ==> s.threads[t].key == key)
    && (forall t :: t in moved && t in s'.threads ==> s'.threads[t].key == key)
  }

  lemma OthersAccounted(s: Sys, s': Sys, key: Key, moved: set<Tid>, o: Options)
    requires OneHost(s, s', key, moved)
    requires forall k :: k in s.pool.hosts ==> HostAccounted(s, k, o)
    requires HostAccounted(s', key, o)
    ensures forall k :: k in s'.pool.hosts ==> HostAccounted(s', k, o)
  {
    forall k | k in s'.pool.hosts && k != key ensures HostAccounted(s', k, o) {
      assert HostAccounted(s, k, o);
      assert Dials(s'.threads, k) == Dials(s.threads, k) by {
        forall u | u in Dials(s'.threads, k) ensures u in Dials(s.threads, k) {
          assert u !in moved;
          assert u in s'.threads - moved;
        }
        forall u | u in Dials(s.threads, k) ensures u in Dials(s'.threads, k) {
          assert u !in moved;
          assert u in s.threads - moved;
        }
      }
    }
  }

  lemma PlacedKept(s: Sys, s': Sys, key: Key, moved: set<Tid>)
    requires OneHost(s, s', key, moved) && ClientsPlaced(s)
    requires s.dialed <= s'.dialed
    requires forall c :: c in HostClients(s'.pool.hosts[key]) ==>
               c in HostClients(GetHost(s.pool, key)) || s.dialed <= c < s'.dialed
    ensures ClientsPlaced(s')
  {
    forall k, c | k in s'.pool.hosts && c in HostClients(s'.pool.hosts[k]) ensures c < s'.dialed {
      if k != key { assert s'.pool.hosts[k] == s.pool.hosts[k]; }
    }
    forall k | k in s'.pool.hosts && k != key
      ensures HostClients(s'.pool.hosts[k]) !! HostClients(s'.pool.hosts[key])
    {
      assert s'.pool.hosts[k] == s.pool.hosts[k];
      if key in s.pool.hosts {
        assert HostClients(s.pool.hosts[k]) !! HostClients(s.pool.hosts[key]);
      }
    }
  }

  /** The channel of `key` is either left alone or superseded with its close done or owed. */
  ghost predicate ChannelStep(s: Sys, s': Sys, key: Key)
    requires key in s'.pool.hosts
  {
    var g := GetHost(s.pool, key).gen;
    || (s'.pool.hosts[key].gen == g && s'.signalled == s.signalled && s'.owed == s.owed)
    || (s'.pool.hosts[key].gen == g + 1 && s'.signalled == s.signalled + {Chan(key, g)} && s'.owed == s.owed)
    || (s'.pool.hosts[key].gen == g + 1 && s'.signalled == s.signalled && s'.owed == s.owed + {Chan(key, g)})
  }

  lemma ChannelsKept(s: Sys, s': Sys, key: Key, moved: set<Tid>)
    requires OneHost(s, s', key, moved) && ChannelsOnce(s) && ChannelStep(s, s', key)
    ensures ChannelsOnce(s')
  {
    var g := GetHost(s.pool, key).gen;
    assert Chan(key, g) !in s.signalled + s.owed;
    forall ch: Chan
      ensures ch in s'.signalled + s'.owed <==> ch.key in s'.pool.hosts && ch.gen < s'.pool.hosts[ch.key].gen
    {
      assert ch in s.signalled + s.owed <==> ch.key in s.pool.hosts && ch.gen < s.pool.hosts[ch.key].gen;
      assert ch.key == key && ch.gen == g ==> ch == Chan(key, g);
      if ch.key != key && ch.key in s.pool.hosts { assert s'.pool.hosts[ch.key] == s.pool.hosts[ch.key]; }
    }
  }

  /** A host whose channel is not superseded does not leave saturation. */
  ghost predicate StaysSaturated(h: Host, h': Host, o: Options) {
    h'.gen == h.gen && Saturated(h, o) ==> Saturated(h', o)
  }

  lemma WaitersKept(s: Sys, s': Sys, key: Key, moved: set<Tid>, o: Options)
    requires OneHost(s, s', key, moved) && Waiters(s, o)
    requires GetHost(s.pool, key).gen <= s'.pool.hosts[key].gen
    requires forall t :: t in moved && t in s'.threads && s'.threads[t].Waiting? ==> WaiterCovered(s', t, o)
    requires StaysSaturated(GetHost(s.pool, key), s'.pool.hosts[key], o)
    ensures Waiters(s', o)
  {
    forall u | u in s'.threads
      ensures s'.threads[u].key in s'.pool.hosts
      ensures s'.threads[u].Waiting? ==> WaiterCovered(s', u, o)
    {
      if u !in moved {
        assert u in s'.threads - moved;
        assert u in s.threads && s'.threads[u] == s.threads[u];
        if s.threads[u].Waiting? { assert WaiterCovered(s, u, o); }
      }
    }
  }

  /** All that a step confined to host `key` owes the core. */
  ghost predicate GoodStep(s: Sys, s': Sys, key: Key, moved: set<Tid>, o: Options) {
    && OneHost(s, s', key, moved)
    && HostAccounted(s', key, o)
    && s.dialed <= s'.dialed
    && (forall c :: c in HostClients(s'.pool.hosts[key]) ==>
          c in HostClients(GetHost(s.pool, key)) || s.dialed <= c < s'.dialed)
    && ChannelStep(s, s', key)
    && (forall t :: t in moved && t in s'.threads && s'.threads[t].Waiting? ==> WaiterCovered(s', t, o))
    && StaysSaturated(GetHost(s.pool, key), s'.pool.hosts[key], o)
  }

  lemma CoreOneHost(s: Sys, s': Sys, key: Key, moved: set<Tid>, o: Options)
    requires Core(s, o) && !s.pool.closed && GoodStep(s, s', key, moved, o)
    ensures Core(s', o)
  {
    OthersAccounted(s, s', key, moved, o);
    PlacedKept(s, s', key, moved);
    ChannelsKept(s, s', key, moved);
    WaitersKept(s, s', key, moved, o);
  }

  // ------------------------------------------------------- the core is kept

  lemma {:induction false} ReapNothing(idle: seq<Idle>, now: Time, o: Options)
    requires Expired(idle, now, o) == []
    ensures Fresh(idle, now, o) == idle
  {
    if idle != [] {
      ReapNothing(idle[..|idle| - 1], now, o);
    }
  }

  lemma ReapedSets(h: Host, now: Time, o: Options)
    requires Distinct(h.idle) && IdleClients(h.idle) !! h.active
    ensures var h', gone := ReapHost(h, now, o), Expired(h.idle, now, o);
            && IdleClients(h'.idle) !! h'.active
            && HostClients(h) == HostClients(h') + Elements(gone)
            && HostClients(h') !! Elements(gone)
  {
    ReapDistinct(h.idle, now, o);
    var h', gone := ReapHost(h, now, o), Expired(h.idle, now, o);
    assert IdleClients(h.idle) == IdleClients(h'.idle) + Elements(gone);
  }

  lemma ReapedHost(s: Sys, k: Key, now: Time, o: Options)
    requires k in s.pool.hosts && HostAccounted(s, k, o)
    ensures var h := s.pool.hosts[k];
            Reaped(s, k, ReapHost(h, now, o), Expired(h.idle, now, o), o)
  {
    var h := s.pool.hosts[k];
    ReapedSets(h, now, o);
    assert Distinct(Fresh(h.idle, now, o)) by { ReapDistinct(h.idle, now, o); }
    assert |Fresh(h.idle, now, o)| + |Expired(h.idle, now, o)| == |h.idle| by { ReapPartitions(h.idle, now, o); }
    if Expired(h.idle, now, o) == [] { ReapNothing(h.idle, now, o); }
  }

  lemma CoreReap(s: Sys, now: Time, o: Options)
    requires Core(s, o)
    ensures Core(Apply(s, Reap(now), o), o)
  {
    var s' := Apply(s, Reap(now), o);
    if s.pool.closed {
      assert forall k :: k in s.pool.hosts ==> ReapHost(s.pool.hosts[k], now, o) == s.pool.hosts[k];
      assert s'.pool == s.pool;
      assert ReapedChans(s.pool, now, o) == {};
      assert s'.signalled == s.signalled;
      forall t | t in s'.threads && s'.threads[t].Waiting? ensures WaiterCovered(s', t, o) {
        assert WaiterCovered(s, t, o);
      }
    } else {
      forall k | k in s.pool.hosts ensures HostAccounted(s', k, o) {
        ReapedHost(s, k, now, o);
      }
      assert ClientsPlaced(s') by {
        forall k | k in s.pool.hosts
          ensures HostClients(s'.pool.hosts[k]) <= HostClients(s.pool.hosts[k])
        {
          ReapedHost(s, k, now, o);
        }
      }
      assert ChannelsOnce(s') by {
        forall ch: Chan
          ensures ch in s'.signalled + s'.owed <==> ch.key in s'.pool.hosts && ch.gen < s'.pool.hosts[ch.key].gen
        {
          assert ch in s.signalled + s.owed <==> ch.key in s.pool.hosts && ch.gen < s.pool.hosts[ch.key].gen;
          assert ch in ReapedChans(s.pool, now, o) <==>
            && ch.key in s.pool.hosts && Expired(s.pool.hosts[ch.key].idle, now, o) != []
            && ch.gen == s.pool.hosts[ch.key].gen;
        }
      }
      forall t | t in s'.threads && s'.threads[t].Waiting? ensures WaiterCovered(s', t, o) {
        assert WaiterCovered(s, t, o);
        ReapedHost(s, s.threads[t].key, now, o);
      }
    }
  }

  lemma CoreClose(s: Sys, o: Options)
    requires Core(s, o)
    ensures Core(Apply(s, CloseStep, o), o)
  {
    var s' := Apply(s, CloseStep, o);
    if !s.pool.closed {
      forall k | k in s.pool.hosts ensures s'.pool.hosts[k] == ClosedHost(s.pool.hosts[k]) {}
      assert forall k :: k in s'.pool.hosts ==> HostClients(s'.pool.hosts[k]) == {};
      assert ChannelsOnce(s') by {
        forall ch: Chan
          ensures ch in s'.signalled + s'.owed <==> ch.key in s'.pool.hosts && ch.gen < s'.pool.hosts[ch.key].gen
        {
          assert ch in s.signalled + s.owed <==> ch.key in s.pool.hosts && ch.gen < s.pool.hosts[ch.key].gen;
          assert ch in CurrentChans(s.pool) <==> ch.key in s.pool.hosts && ch.gen == s.pool.hosts[ch.key].gen;
        }
      }
      forall t | t in s'.threads && s'.threads[t].Waiting? ensures WaiterCovered(s', t, o) {
        assert WaiterCovered(s, t, o);
      }
    }
  }

  lemma CoreSignal(s: Sys, ch: Chan, o: Options)
    requires Core(s, o) && Enabled(s, Signal(ch))
    ensures Core(Apply(s, Signal(ch), o), o)
  {
    var s' := Apply(s, Signal(ch), o);
    assert s'.signalled + s'.owed == s.signalled + s.owed;
    forall k | k in s.pool.hosts && !s.pool.closed ensures HostAccounted(s', k, o) {
      assert HostAccounted(s, k, o);
    }
    forall t | t in s'.threads && s'.threads[t].Waiting? ensures WaiterCovered(s', t, o) {
      assert WaiterCovered(s, t, o);
    }
  }

  /** Dropping a thread that is not dialing changes nothing the core speaks of. */
  lemma CoreDrop(s: Sys, t: Tid, o: Options)
    requires Core(s, o)
    requires t in s.threads ==> !s.threads[t].Dialing?
    ensures Core(s.(threads := s.threads - {t}), o)
  {
    var s' := s.(threads := s.threads - {t});
    forall k | k in s.pool.hosts && !s.pool.closed ensures HostAccounted(s', k, o) {
      assert HostAccounted(s, k, o);
      DialsRemove(s.threads, t, k);
    }
    forall u | u in s'.threads && s'.threads[u].Waiting? ensures WaiterCovered(s', u, o) {
      assert WaiterCovered(s, u, o);
    }
  }

  /** The closed set and the dead and doomed sets do not enter the core. */
  lemma CoreIgnoresGraveyard(s: Sys, doomed: set<Client>, dead: set<Client>, o: Options)
    requires Core(s, o)
    ensures Core(s.(doomed := doomed, dead := dead), o)
  {
    var s' := s.(doomed := doomed, dead := dead);
    forall k | k in s.pool.hosts && !s.pool.closed ensures HostAccounted(s', k, o) {
      assert HostAccounted(s, k, o);
    }
    forall u | u in s'.threads && s'.threads[u].Waiting? ensures WaiterCovered(s', u, o) {
      assert WaiterCovered(s, u, o);
    }
  }

  lemma ReturnedHost(s: Sys, key: Key, client: Client, now: Time, o: Options)
    requires key in s.pool.hosts && HostAccounted(s, key, o) && !s.pool.closed
    requires client in s.pool.hosts[key].active
    ensures var s' := ApplyRelease(s, key, client, now);
            HostAccounted(s', key, o) && HostClients(s'.pool.hosts[key]) == HostClients(s.pool.hosts[key])
  {
    var h := s.pool.hosts[key];
    IdleClientsAppend(h.idle, Idle(client, now));
    assert client !in IdleClients(h.idle);
    forall i | 0 <= i < |h.idle| ensures h.idle[i].client != client {
      assert h.idle[i].client in IdleClients(h.idle);
    }
  }

  lemma ReturnedChannel(s: Sys, key: Key, client: Client, now: Time, o: Options)
    requires key in s.pool.hosts && !s.pool.closed && client in s.pool.hosts[key].active
    ensures var s' := ApplyRelease(s, key, client, now);
            && OneHost(s, s', key, {})
            && ChannelStep(s, s', key)
            && StaysSaturated(GetHost(s.pool, key), s'.pool.hosts[key], o)
            && s'.dialed == s.dialed
  {
    var s' := ApplyRelease(s, key, client, now);
    assert s'.pool.hosts.Keys == s.pool.hosts.Keys + {key};
  }

  /** Also: the branch of Release that runs on a closed pool is never taken. */
  lemma CoreRelease(s: Sys, key: Key, client: Client, now: Time, o: Options)
    requires Core(s, o)
    ensures Core(ApplyRelease(s, key, client, now), o)
    ensures s.pool.closed ==> !Release(s.pool, key, client, now).1.Returned?
  {
    var s' := ApplyRelease(s, key, client, now);
    if key in s.pool.hosts && client in s.pool.hosts[key].active {
      ReturnedHost(s, key, client, now, o);
      ReturnedChannel(s, key, client, now, o);
      CoreOneHost(s, s', key, {}, o);
    } else {
      CoreIgnoresGraveyard(s, s'.doomed, s'.dead, o);
    }
  }

  lemma CoreDialOkClosed(s: Sys, t: Tid, o: Options)
    requires Core(s, o) && Enabled(s, DialOk(t)) && s.pool.closed
    ensures Core(Apply(s, DialOk(t), o), o)
  {
    var s', key := ApplyDialOk(s, t), s.threads[t].key;
    PlacedKept(s, s', key, {t});
    ChannelsKept(s, s', key, {t});
    WaitersKept(s, s', key, {t}, o);
  }

  lemma DialedGood(s: Sys, t: Tid, o: Options)
    requires Enabled(s, DialOk(t)) && !s.pool.closed
    requires s.threads[t].key in s.pool.hosts && HostAccounted(s, s.threads[t].key, o)
    requires s.dialed !in HostClients(s.pool.hosts[s.threads[t].key])
    ensures GoodStep(s, ApplyDialOk(s, t), s.threads[t].key, {t}, o)
  {
    var s', key := ApplyDialOk(s, t), s.threads[t].key;
    DialsUpdate(s.threads, t, Holding(key, s.dialed), key);
    assert HostClients(s'.pool.hosts[key]) == HostClients(s.pool.hosts[key]) + {s.dialed};
    assert s'.pool.hosts.Keys == s.pool.hosts.Keys + {key};
    assert s'.threads - {t} == s.threads - {t};
  }

  lemma CoreDialOk(s: Sys, t: Tid, o: Options)
    requires Core(s, o) && Enabled(s, DialOk(t))
    ensures Core(Apply(s, DialOk(t), o), o)
  {
    if s.pool.closed {
      CoreDialOkClosed(s, t, o);
    } else {
      DialedGood(s, t, o);
      CoreOneHost(s, ApplyDialOk(s, t), s.threads[t].key, {t}, o);
    }
  }

  lemma DialFailGood(s: Sys, t: Tid, o: Options)
    requires Enabled(s, DialFail(t)) && s.threads[t].key in s.pool.hosts && HostAccounted(s, s.threads[t].key, o)
    ensures GoodStep(s, Apply(s, DialFail(t), o), s.threads[t].key, {t}, o)
  {
    var s', key := Apply(s, DialFail(t), o), s.threads[t].key;
    DialsRemove(s.threads, t, key);
    assert t in Dials(s.threads, key);
    assert s.pool.hosts[key].total > 0;
    assert s'.pool.hosts.Keys == s.pool.hosts.Keys + {key};
    assert s'.threads - {t} == s.threads - {t};
  }

  lemma CoreDialFail(s: Sys, t: Tid, o: Options)
    requires Core(s, o) && Enabled(s, DialFail(t))
    ensures Core(Apply(s, DialFail(t), o), o)
  {
    var s', key := Apply(s, DialFail(t), o), s.threads[t].key;
    if s.pool.closed {
      assert s'.pool == s.pool;
      forall u | u in s'.threads && s'.threads[u].Waiting? ensures WaiterCovered(s', u, o) {
        assert WaiterCovered(s, u, o);
      }
    } else {
      DialFailGood(s, t, o);
      CoreOneHost(s, s', key, {t}, o);
    }
  }

  /** What a reap of host `key`, which need not exist yet, to `h` promises. */
  ghost predicate Reaped(s: Sys, key: Key, h: Host, gone: seq<Client>, o: Options) {
    var h0 := GetHost(s.pool, key);
    && h.total == |h.idle| + |h.active| + |Dials(s.threads, key)| <= o.maxPerHost
    && Distinct(h.idle)
    && IdleClients(h.idle) !! h.active
    && HostClients(h0) == HostClients(h) + Elements(gone)
    && HostClients(h) !! Elements(gone)
    && h.active == h0.active
    && h.gen == (if gone == [] then h0.gen else h0.gen + 1)
    && (gone == [] ==> h == h0)
  }

  /** The host a reservation works on, before its outcome is decided. */
  lemma ReapedForReserve(s: Sys, key: Key, now: Time, o: Options)
    requires Core(s, o) && !s.pool.closed
    ensures var h := GetHost(s.pool, key);
            Reaped(s, key, ReapHost(h, now, o), Expired(h.idle, now, o), o)
  {
    if key in s.pool.hosts {
      ReapedHost(s, key, now, o);
    } else {
      assert Dials(s.threads, key) == {};
      assert ReapHost(EMPTY_HOST, now, o) == EMPTY_HOST;
    }
  }

  /** What a reservation leaves behind, whatever its outcome. */
  lemma AcquiredHost(s: Sys, t: Tid, key: Key, h: Host, gone: seq<Client>, o: Options)
    requires t !in s.threads && Reaped(s, key, h, gone, o)
    ensures var s' := AcquireReaped(s, t, key, h, gone, o);
            && HostAccounted(s', key, o)
            && HostClients(s'.pool.hosts[key]) == HostClients(h)
  {
    var (p, r) := ReserveReaped(s.pool, key, h, o);
    DialsUpdate(s.threads, t, NextPc(key, r), key);
    ReservedHost(s.pool, key, h, o);
  }

  lemma ReservedHost(p: Pool, key: Key, h: Host, o: Options)
    requires Distinct(h.idle) && IdleClients(h.idle) !! h.active && h.total <= o.maxPerHost
    ensures var (p', r) := ReserveReaped(p, key, h, o);
            var h' := p'.hosts[key];
            && !r.PoolClosed? && HostClients(h') == HostClients(h)
            && Distinct(h'.idle) && IdleClients(h'.idle) !! h'.active
            && h'.total == h.total + (if r.MustDial? then 1 else 0) <= o.maxPerHost
            && |h'.idle| + |h'.active| == |h.idle| + |h.active|
  {
    if |h.idle| > 0 { ReusedHost(h); }
  }

  lemma AcquiredShape(s: Sys, t: Tid, key: Key, h: Host, gone: seq<Client>, o: Options)
    requires t !in s.threads
    requires h.gen == GetHost(s.pool, key).gen + if gone == [] then 0 else 1
    ensures var s' := AcquireReaped(s, t, key, h, gone, o);
            OneHost(s, s', key, {t}) && ChannelStep(s, s', key) && s'.dialed == s.dialed
  {
    var s' := AcquireReaped(s, t, key, h, gone, o);
    assert s'.pool.hosts.Keys == s.pool.hosts.Keys + {key};
    assert s'.threads - {t} == s.threads - {t};
  }

  lemma AcquiredSaturation(s: Sys, t: Tid, key: Key, h: Host, gone: seq<Client>, o: Options)
    requires h.total <= o.maxPerHost && !s.pool.closed
    requires h.gen == GetHost(s.pool, key).gen ==> h == GetHost(s.pool, key)
    ensures var s' := AcquireReaped(s, t, key, h, gone, o);
            && key in s'.pool.hosts && t in s'.threads
            && StaysSaturated(GetHost(s.pool, key), s'.pool.hosts[key], o)
            && (s'.threads[t].Waiting? ==> WaiterCovered(s', t, o))
  {
  }

  lemma AcquiredGood(s: Sys, t: Tid, key: Key, h: Host, gone: seq<Client>, o: Options)
    requires t !in s.threads && Reaped(s, key, h, gone, o) && !s.pool.closed
    ensures GoodStep(s, AcquireReaped(s, t, key, h, gone, o), key, {t}, o)
  {
    AcquiredHost(s, t, key, h, gone, o);
    AcquiredShape(s, t, key, h, gone, o);
    AcquiredSaturation(s, t, key, h, gone, o);
  }

  lemma ClosedAcquire(s: Sys, t: Tid, key: Key, now: Time, o: Options)
    requires s.pool.closed
    ensures ApplyAcquire(s, t, key, now, o) == s
  {
    assert s.doomed + Elements([]) == s.doomed;
  }

  lemma CoreAcquire(s: Sys, t: Tid, key: Key, now: Time, o: Options)
    requires Core(s, o) && t !in s.threads
    ensures Core(ApplyAcquire(s, t, key, now, o), o)
  {
    if s.pool.closed {
      ClosedAcquire(s, t, key, now, o);
    } else {
      ReapedForReserve(s, key, now, o);
      var h0 := GetHost(s.pool, key);
      var h, gone := ReapHost(h0, now, o), Expired(h0.idle, now, o);
      AcquiredGood(s, t, key, h, gone, o);
      CoreOneHost(s, AcquireReaped(s, t, key, h, gone, o), key, {t}, o);
    }
  }

  lemma ReusedHost(h: Host)
    requires |h.idle| > 0 && Distinct(h.idle) && IdleClients(h.idle) !! h.active
    ensures var n := |h.idle| - 1;
            var h' := h.(idle := h.idle[..n], active := h.active + {h.idle[n].client});
            && HostClients(h') == HostClients(h)
            && Distinct(h'.idle) && IdleClients(h'.idle) !! h'.active
            && |h'.idle| + |h'.active| == |h.idle| + |h.active|
  {
    var n := |h.idle| - 1;
    assert h.idle == h.idle[..n] + [h.idle[n]];
    IdleClientsAppend(h.idle[..n], h.idle[n]);
    assert h.idle[n].client in IdleClients(h.idle);
  }

  /** Every step keeps the core. */
  lemma CoreStep(s: Sys, st: Step, o: Options)
    requires Core(s, o) && Enabled(s, st)
    ensures Core(Apply(s, st, o), o)
  {
    match st
    case AcquireStep(t, key, now) => CoreAcquire(s, t, key, now, o);
    case DialOk(t) => CoreDialOk(s, t, o);
    case DialFail(t) => CoreDialFail(s, t, o);
    case ReleaseHeld(t, now) =>
      CoreRelease(s, s.threads[t].key, s.threads[t].client, now, o);
      CoreDrop(ApplyRelease(s, s.threads[t].key, s.threads[t].client, now), t, o);
    case StrayRelease(key, client, now) => CoreRelease(s, key, client, now, o);
    case Reap(now) => CoreReap(s, now, o);
    case CloseStep => CoreClose(s, o);
    case Signal(ch) => CoreSignal(s, ch, o);
    case CloseClient(c) => CoreIgnoresGraveyard(s, s.doomed - {c}, s.dead + {c}, o);
    case WakeNotified(t) => CoreDrop(s, t, o);
    case WakeCancelled(t) => CoreDrop(s, t, o);
    case WakeDone(t) => CoreDrop(s, t, o);
  }
}
