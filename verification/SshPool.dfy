/** The SSH connection pool of ssh/pool.go.

    Every critical section of the pool's mutex is one function from pool value to
    pool value.  `PoolObject.dfy` runs the same sections imperatively, `PoolSystem.dfy`
    interleaves them over any number of threads. */
module SshPool {
  type Key = string        // Target.Key(): user@host:port
  type Client = nat        // identity of one dialed SSH client
  type Time = int          // nanoseconds on the pool's clock, which need not be monotone

  /** A broadcast channel: the `gen`-th notify channel of host `key`. */
  datatype Chan = Chan(key: Key, gen: nat)

  datatype Idle = Idle(client: Client, lastUsed: Time)

  /** hostPool; `gen` names the notify channel currently installed. */
  datatype Host = Host(idle: seq<Idle>, active: set<Client>, total: int, gen: nat)

  /** The fields guarded by the pool's mutex. */
  datatype Pool = Pool(closed: bool, hosts: map<Key, Host>)

  /** The options the critical sections read, after normalizePoolOptions. */
  datatype RawOptions = RawOptions(maxPerHost: int, idleTimeout: int)

  type Options = o: RawOptions | o.maxPerHost > 0 && o.idleTimeout > 0
    witness RawOptions(DEFAULT_MAX_PER_HOST, DEFAULT_IDLE_TIMEOUT)

  const DEFAULT_MAX_PER_HOST := 3
  const DEFAULT_IDLE_TIMEOUT := 60_000_000_000

  function Normalize(o: RawOptions): (r: Options) {
    RawOptions(
      if o.maxPerHost <= 0 then DEFAULT_MAX_PER_HOST else o.maxPerHost,
      if o.idleTimeout <= 0 then DEFAULT_IDLE_TIMEOUT else o.idleTimeout)
  }

  const EMPTY_HOST := Host([], {}, 0, 0)

  function GetHost(p: Pool, key: Key): Host {
    if key in p.hosts then p.hosts[key] else EMPTY_HOST
  }

  // ---------------------------------------------------------------- reaping

  predicate IsExpired(i: Idle, now: Time, o: Options) {
    now - i.lastUsed > o.idleTimeout
  }

  function Fresh(idle: seq<Idle>, now: Time, o: Options): seq<Idle> {
    if idle == [] then []
    else
      var last := idle[|idle| - 1];
      Fresh(idle[..|idle| - 1], now, o) + if IsExpired(last, now, o) then [] else [last]
  }

  function Expired(idle: seq<Idle>, now: Time, o: Options): seq<Client> {
    if idle == [] then []
    else
      var last := idle[|idle| - 1];
      Expired(idle[..|idle| - 1], now, o) + if IsExpired(last, now, o) then [last.client] else []
  }

  function ReapHost(h: Host, now: Time, o: Options): Host {
    var gone := Expired(h.idle, now, o);
    Host(Fresh(h.idle, now, o), h.active, h.total - |gone|,
         if gone == [] then h.gen else h.gen + 1)
  }

  // ------------------------------------------------------- critical sections

  datatype Reservation =
    | PoolClosed
    | Reused(client: Client)
    | MustDial
    | MustWait(gen: nat)

  /** reserveOrWait on an open pool, once the host was reaped to `h`. */
  function ReserveReaped(p: Pool, key: Key, h: Host, o: Options): (Pool, Reservation) {
    if |h.idle| > 0 then
      var c := h.idle[|h.idle| - 1].client;
      var h' := h.(idle := h.idle[..|h.idle| - 1], active := h.active + {c});
      (p.(hosts := p.hosts[key := h']), Reused(c))
    else if h.total < o.maxPerHost then
      (p.(hosts := p.hosts[key := h.(total := h.total + 1)]), MustDial)
    else
      (p.(hosts := p.hosts[key := h]), MustWait(h.gen))
  }

  /** reserveOrWait; the last component lists the clients it expired. */
  function Reserve(p: Pool, key: Key, now: Time, o: Options): (Pool, Reservation, seq<Client>) {
    if p.closed then (p, PoolClosed, [])
    else
      var h := GetHost(p, key);
      var (p', r) := ReserveReaped(p, key, ReapHost(h, now, o), o);
      (p', r, Expired(h.idle, now, o))
  }

  datatype ReleaseEffect =
    | UnknownHost                              // the client is closed, nothing else happens
    | NotActive                                // no-op
    | Returned(closeClient: bool, gen: nat)    // `gen` is superseded and its close is owed

  function Release(p: Pool, key: Key, client: Client, now: Time): (Pool, ReleaseEffect) {
    if key !in p.hosts then (p, UnknownHost)
    else
      var h := p.hosts[key];
      if client !in h.active then (p, NotActive)
      else
        var h' := if p.closed
                  then h.(active := h.active - {client}, total := h.total - 1, gen := h.gen + 1)
                  else h.(active := h.active - {client}, idle := h.idle + [Idle(client, now)], gen := h.gen + 1);
        (p.(hosts := p.hosts[key := h']), Returned(p.closed, h.gen))
  }

  /** The locked tail of dialReserved after a successful dial; true when the caller keeps the client. */
  function DialDone(p: Pool, key: Key, client: Client): (Pool, bool) {
    var h := GetHost(p, key);
    if p.closed then (p.(hosts := p.hosts[key := h.(total := h.total - 1)]), false)
    else (p.(hosts := p.hosts[key := h.(active := h.active + {client})]), true)
  }

  /** releaseReservation; true when it superseded and closed the notify channel. */
  function ReleaseReservation(p: Pool, key: Key): (Pool, bool) {
    if key in p.hosts && p.hosts[key].total > 0 then
      var h := p.hosts[key];
      (p.(hosts := p.hosts[key := h.(total := h.total - 1, gen := h.gen + 1)]), true)
    else (p, false)
  }

  function ReapIdle(p: Pool, now: Time, o: Options): Pool {
    p.(hosts := map k | k in p.hosts :: ReapHost(p.hosts[k], now, o))
  }

  function ClosedHost(h: Host): Host { Host([], {}, 0, h.gen + 1) }

  function Close(p: Pool): Pool {
    if p.closed then p
    else Pool(true, map k | k in p.hosts :: ClosedHost(p.hosts[k]))
  }

  // ------------------------------------------------------------- client sets

  function IdleClients(idle: seq<Idle>): set<Client> {
    set i | 0 <= i < |idle| :: idle[i].client
  }

  predicate Distinct(idle: seq<Idle>) {
    forall i, j :: 0 <= i < j < |idle| ==> idle[i].client != idle[j].client
  }

  function HostClients(h: Host): set<Client> { IdleClients(h.idle) + h.active }

  function AllClients(p: Pool): set<Client> {
    set k, c | k in p.hosts && c in HostClients(p.hosts[k]) :: c
  }

  function Elements(cs: seq<Client>): set<Client> { set c | c in cs }

  function ReapedClients(p: Pool, now: Time, o: Options): set<Client> {
    set k, c | k in p.hosts && c in Expired(p.hosts[k].idle, now, o) :: c
  }

  // ------------------------------------------------------ facts about reaping

  /** The reap keeps exactly the entries used within IdleTimeout, in order, and
      expires exactly the others: nothing is lost, invented or kept too long. */
  lemma {:induction false} ReapPartitions(idle: seq<Idle>, now: Time, o: Options)
    ensures |Fresh(idle, now, o)| + |Expired(idle, now, o)| == |idle|
    ensures forall e :: e in Fresh(idle, now, o) <==> e in idle && !IsExpired(e, now, o)
    ensures forall c :: c in Expired(idle, now, o) <==>
              exists i :: 0 <= i < |idle| && idle[i].client == c && IsExpired(idle[i], now, o)
  {
    if idle != [] {
      var front, last := idle[..|idle| - 1], idle[|idle| - 1];
      ReapPartitions(front, now, o);
      assert idle == front + [last];
      forall c | c in Expired(idle, now, o)
        ensures exists i :: 0 <= i < |idle| && idle[i].client == c && IsExpired(idle[i], now, o)
      {
        if c in Expired(front, now, o) {
          var i :| 0 <= i < |front| && front[i].client == c && IsExpired(front[i], now, o);
          assert idle[i] == front[i];
        } else {
          assert idle[|idle| - 1].client == c;
        }
      }
      forall i | 0 <= i < |idle| && IsExpired(idle[i], now, o)
        ensures idle[i].client in Expired(idle, now, o)
      {
        if i < |front| { assert front[i] == idle[i]; }
      }
    }
  }

  /** What a reap does to a duplicate-free idle list, as sets of clients. */
  lemma {:induction false} ReapDistinct(idle: seq<Idle>, now: Time, o: Options)
    requires Distinct(idle)
    ensures Distinct(Fresh(idle, now, o))
    ensures forall i, j :: 0 <= i < j < |Expired(idle, now, o)| ==> Expired(idle, now, o)[i] != Expired(idle, now, o)[j]
    ensures forall c :: c in Expired(idle, now, o) ==> c !in IdleClients(Fresh(idle, now, o))
    ensures forall c :: c in IdleClients(idle) <==> c in Expired(idle, now, o) || c in IdleClients(Fresh(idle, now, o))
  {
    if idle != [] {
      var front, last := idle[..|idle| - 1], idle[|idle| - 1];
      assert idle == front + [last];
      ReapDistinct(front, now, o);
      assert IdleClients(idle) == IdleClients(front) + {last.client} by { IdleClientsAppend(front, last); }
      assert last.client !in IdleClients(front);
      if IsExpired(last, now, o) {
        assert Fresh(idle, now, o) == Fresh(front, now, o);
      } else {
        assert Expired(idle, now, o) == Expired(front, now, o);
        IdleClientsAppend(Fresh(front, now, o), last);
      }
    }
  }

  lemma IdleClientsAppend(idle: seq<Idle>, e: Idle)
    ensures IdleClients(idle + [e]) == IdleClients(idle) + {e.client}
  {
    var all := idle + [e];
    forall c | c in IdleClients(idle) + {e.client} ensures c in IdleClients(all) {
      if c == e.client {
        assert all[|idle|].client == c;
      } else {
        var i :| 0 <= i < |idle| && idle[i].client == c;
        assert all[i].client == c;
      }
    }
  }

  // --------------------------------------------------- facts about one section

  /** A client handed out from the idle list was last used at most IdleTimeout ago. */
  lemma ReusedClientIsFresh(p: Pool, key: Key, now: Time, o: Options)
    requires Reserve(p, key, now, o).1.Reused?
    ensures key in p.hosts && !p.closed
    ensures exists i :: 0 <= i < |p.hosts[key].idle|
                     && p.hosts[key].idle[i].client == Reserve(p, key, now, o).1.client
                     && now - p.hosts[key].idle[i].lastUsed <= o.idleTimeout
  {
    var h0 := GetHost(p, key);
    ReapPartitions(h0.idle, now, o);
    var h := ReapHost(h0, now, o);
    var e := h.idle[|h.idle| - 1];
    assert e in h0.idle;
  }

  /** A client is stamped with the time it is released: the next Acquire gets that very client back,
      before any other idle one, exactly up to IdleTimeout later. */
  lemma ReleasedIsReusedIff(p: Pool, key: Key, c: Client, t: Time, now: Time, o: Options)
    requires !p.closed && key in p.hosts && c in p.hosts[key].active && c !in IdleClients(p.hosts[key].idle)
    ensures Reserve(Release(p, key, c, t).0, key, now, o).1 == Reused(c) <==> now - t <= o.idleTimeout
  {
    var h0, h := p.hosts[key], Release(p, key, c, t).0.hosts[key];
    assert h.idle[..|h0.idle|] == h0.idle && h.idle[|h0.idle|] == Idle(c, t);
    if now - t > o.idleTimeout {
      var kept := Fresh(h.idle, now, o);
      ReapPartitions(h0.idle, now, o);
      assert forall i :: 0 <= i < |kept| ==> kept[i] in h0.idle;
      assert forall i :: 0 <= i < |h0.idle| ==> h0.idle[i].client in IdleClients(h0.idle);
    }
  }

  /** What Release does to the host of an active client: on a closed pool the client is to be closed and
      its slot is gone; on an open one it is idle and its slot stays.  Either way it is active no more
      and the waiters' channel is superseded. */
  lemma ReleaseTakesEffect(p: Pool, key: Key, c: Client, now: Time)
    requires key in p.hosts && c in p.hosts[key].active
    ensures var h, (p', e) := p.hosts[key], Release(p, key, c, now);
            && p'.closed == p.closed && p'.hosts.Keys == p.hosts.Keys
            && (forall k :: k in p.hosts && k != key ==> p'.hosts[k] == p.hosts[k])
            && e == Returned(p.closed, h.gen)
            && p'.hosts[key] == Host(if p.closed then h.idle else h.idle + [Idle(c, now)], h.active - {c},
                                     if p.closed then h.total - 1 else h.total, h.gen + 1)
  {
  }

  /** Options given are kept; missing ones become 3 connections per host and 60 seconds. */
  lemma DefaultsFillIn(o: RawOptions)
    ensures Normalize(o).maxPerHost == if o.maxPerHost > 0 then o.maxPerHost else 3
    ensures Normalize(o).idleTimeout == if o.idleTimeout > 0 then o.idleTimeout else 60 * 1_000_000_000
  {
  }

  /** "Releasing the same client twice is a no-op" holds exactly when the host is known
      and the client is not active at the second call. */
  lemma ReleaseIsNoOpIff(p: Pool, key: Key, client: Client, now: Time)
    ensures Release(p, key, client, now) == (p, NotActive) <==> key in p.hosts && client !in p.hosts[key].active
    ensures Release(p, key, client, now).0 == p <==> key !in p.hosts || client !in p.hosts[key].active
  {
    if key in p.hosts && client in p.hosts[key].active {
      var p' := Release(p, key, client, now).0;
      assert p'.hosts[key].gen == p.hosts[key].gen + 1;
    }
  }
}
