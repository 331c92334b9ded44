/** The critical sections of ssh/pool.go as they run: methods on an object whose
    fields they update, each proved to compute its function of `SshPool`. */
module PoolObject {
  import opened SshPool

  /** reapHostLocked: compacts the idle slice in place.  `buf` plays the shared backing
      array of `host.idle` and `kept`; writes at `k` never overtake reads at `i`. */
  method ReapHostLocked(h: Host, now: Time, o: Options) returns (h': Host, expired: seq<Client>)
    ensures h' == ReapHost(h, now, o)
    ensures expired == Expired(h.idle, now, o)
  {
    if |h.idle| == 0 { return h, []; }
    var buf, k, total := h.idle, 0, h.total;
    expired := [];
    for i := 0 to |h.idle|
      invariant 0 <= k <= i && |buf| == |h.idle|
      invariant buf[i..] == h.idle[i..]
      invariant buf[..k] == Fresh(h.idle[..i], now, o)
      invariant expired == Expired(h.idle[..i], now, o)
      invariant total == h.total - |expired|
    {
      assert h.idle[..i + 1][..i] == h.idle[..i];
      assert buf[i] == buf[i..][0] == h.idle[i];
      if now - buf[i].lastUsed > o.idleTimeout {
        expired := expired + [buf[i].client];
        total := total - 1;
      } else {
        var next := buf[k := buf[i]];
        assert next[..k + 1] == buf[..k] + [buf[i]];
        buf, k := next, k + 1;
      }
    }
    assert h.idle[..|h.idle|] == h.idle;
    h' := Host(buf[..k], h.active, total, if |expired| > 0 then h.gen + 1 else h.gen);
  }

  class ConnectionPool {
    const opts: Options
    var closed: bool
    var hosts: map<Key, Host>

    function View(): Pool
      reads this
    {
      Pool(closed, hosts)
    }

    constructor (o: RawOptions)
      ensures View() == Pool(false, map[]) && opts == Normalize(o)
    {
      opts := Normalize(o);
      closed, hosts := false, map[];
    }

    method GetHostLocked(key: Key) returns (h: Host)
      modifies this`hosts
      ensures h == GetHost(old(View()), key) && hosts == old(hosts)[key := h]
    {
      if key !in hosts { hosts := hosts[key := EMPTY_HOST]; }
      h := hosts[key];
    }

    method ReserveOrWait(key: Key, now: Time) returns (r: Reservation, expired: seq<Client>)
      modifies this`hosts
      ensures (View(), r, expired) == Reserve(old(View()), key, now, opts)
    {
      if closed { return PoolClosed, []; }
      var host := GetHostLocked(key);
      host, expired := ReapHostLocked(host, now, opts);
      var n := |host.idle|;
      if n > 0 {
        var last := host.idle[n - 1];
        host := host.(idle := host.idle[..n - 1]);
        host := host.(active := host.active + {last.client});
        r := Reused(last.client);
      } else if host.total < opts.maxPerHost {
        host := host.(total := host.total + 1);
        r := MustDial;
      } else {
        r := MustWait(host.gen);
      }
      hosts := hosts[key := host];
      assert hosts == old(hosts)[key := host];
    }

    method ReleaseClient(key: Key, client: Client, now: Time) returns (e: ReleaseEffect)
      modifies this`hosts
      ensures (View(), e) == Release(old(View()), key, client, now)
    {
      if key !in hosts { return UnknownHost; }
      var host := hosts[key];
      if client !in host.active { return NotActive; }
      host := host.(active := host.active - {client});
      if closed {
        host := host.(total := host.total - 1);
      } else {
        host := host.(idle := host.idle + [Idle(client, now)]);
      }
      e := Returned(closed, host.gen);
      host := host.(gen := host.gen + 1);
      hosts := hosts[key := host];
    }

    method FinishDial(key: Key, client: Client) returns (kept: bool)
      modifies this`hosts
      ensures (View(), kept) == DialDone(old(View()), key, client)
    {
      var host := GetHostLocked(key);
      if closed {
        host := host.(total := host.total - 1);
      } else {
        host := host.(active := host.active + {client});
      }
      hosts := hosts[key := host];
      kept := !closed;
      assert hosts == old(hosts)[key := host];
    }

    method DropReservation(key: Key) returns (signalled: bool)
      modifies this`hosts
      ensures (View(), signalled) == ReleaseReservation(old(View()), key)
    {
      signalled := false;
      if key in hosts && hosts[key].total > 0 {
        var host := hosts[key];
        host := host.(total := host.total - 1, gen := host.gen + 1);
        hosts := hosts[key := host];
        signalled := true;
      }
    }

    method ReapAll(now: Time) returns (expired: seq<Client>)
      modifies this`hosts
      ensures View() == ReapIdle(old(View()), now, opts)
      ensures Elements(expired) == ReapedClients(old(View()), now, opts)
    {
      expired := [];
      var todo := hosts.Keys;
      while todo != {}
        invariant hosts.Keys == old(hosts).Keys && todo <= hosts.Keys
        invariant forall k :: k in hosts ==>
                    hosts[k] == if k in todo then old(hosts)[k] else ReapHost(old(hosts)[k], now, opts)
        invariant forall c :: c in expired <==>
                    exists k :: k in old(hosts) && k !in todo && c in Expired(old(hosts)[k].idle, now, opts)
        decreases todo
      {
        var k :| k in todo;
        var host, gone := ReapHostLocked(hosts[k], now, opts);
        hosts := hosts[k := host];
        expired := expired + gone;
        todo := todo - {k};
      }
    }

    /** Close; the clients are closed after unlocking. */
    method Shutdown() returns (clients: seq<Client>)
      modifies this
      ensures View() == Close(old(View()))
      ensures Elements(clients) == if old(closed) then {} else AllClients(old(View()))
    {
      clients := [];
      if closed { return; }
      closed := true;
      var todo := hosts.Keys;
      while todo != {}
        invariant closed
        invariant hosts.Keys == old(hosts).Keys && todo <= hosts.Keys
        invariant forall k :: k in hosts ==>
                    hosts[k] == if k in todo then old(hosts)[k] else ClosedHost(old(hosts)[k])
        invariant forall c :: c in clients <==>
                    exists k :: k in old(hosts) && k !in todo && c in HostClients(old(hosts)[k])
        decreases todo
      {
        var k :| k in todo;
        var mine := ClientsOf(hosts[k]);
        clients := clients + mine;
        hosts := hosts[k := Host([], {}, 0, hosts[k].gen + 1)];
        todo := todo - {k};
      }
    }
  }

  /** The two inner loops of Close over one host. */
  method ClientsOf(h: Host) returns (clients: seq<Client>)
    ensures Elements(clients) == HostClients(h)
  {
    clients := [];
    for i := 0 to |h.idle|
      invariant Elements(clients) == IdleClients(h.idle[..i])
    {
      assert h.idle[..i + 1] == h.idle[..i] + [h.idle[i]];
      IdleClientsAppend(h.idle[..i], h.idle[i]);
      clients := clients + [h.idle[i].client];
    }
    assert h.idle[..|h.idle|] == h.idle;
    var todo := h.active;
    while todo != {}
      invariant todo <= h.active
      invariant Elements(clients) == IdleClients(h.idle) + (h.active - todo)
      decreases todo
    {
      var c :| c in todo;
      assert Elements(clients + [c]) == Elements(clients) + {c};
      assert h.active - (todo - {c}) == (h.active - todo) + {c};
      clients := clients + [c];
      todo := todo - {c};
    }
  }
}
