/** The stale-while-revalidate status cache of status/cache.go with its single-flight
    group and event-driven invalidation (status/ttl.go). */
module StatusCache {
  import opened Wrappers

  type Time = int

  /** A cached value with its dynamic type. */
  datatype Value = Value(typ: nat, data: int)

  datatype Entry = Entry(value: Value, fetchedAt: Time, expiresAt: Time)

  type Entries = map<string, Entry>

  // ------------------------------------------------------------- the getters

  /** What a getter does after its lookup: answer from the cache, refreshing in the
      background when stale, or fetch while the caller waits. */
  datatype Answer = Hit(value: Value, isStale: bool, refresh: bool) | TypeMismatch | Miss

  /** GetOrFetch up to the fetch, for a caller expecting values of type `typ`. */
  function GetOrFetch(entries: Entries, key: string, now: Time, typ: nat): Answer {
    if key !in entries then Miss
    else
      var e := entries[key];
      if e.value.typ != typ then TypeMismatch
      else if now < e.expiresAt || now == e.expiresAt then Hit(e.value, false, false)
      else Hit(e.value, true, true)
  }

  datatype Metadata = Metadata(isStale: bool, age: int, fetchedAt: Time, expiresAt: Time)

  function MetadataFor(e: Entry, now: Time): Metadata {
    var age := now - e.fetchedAt;
    Metadata(now > e.expiresAt, if age < 0 then 0 else age, e.fetchedAt, e.expiresAt)
  }

  datatype MetaAnswer = MetaHit(value: Value, meta: Metadata, refresh: bool) | MetaTypeMismatch | MetaMiss

  function GetOrFetchMeta(entries: Entries, key: string, now: Time, typ: nat): MetaAnswer {
    if key !in entries then MetaMiss
    else
      var e := entries[key];
      if e.value.typ != typ then MetaTypeMismatch
      else
        var meta := MetadataFor(e, now);
        MetaHit(e.value, meta, meta.isStale)
  }

  /** Both getters answer alike, and a hit is reported fresh, without a refresh, exactly
      up to its expiry. */
  lemma GettersAgree(entries: Entries, key: string, now: Time, typ: nat)
    ensures GetOrFetch(entries, key, now, typ).Hit? <==> GetOrFetchMeta(entries, key, now, typ).MetaHit?
    ensures GetOrFetch(entries, key, now, typ).Miss? <==> GetOrFetchMeta(entries, key, now, typ).MetaMiss?
    ensures GetOrFetch(entries, key, now, typ).Hit? ==>
              var a, b := GetOrFetch(entries, key, now, typ), GetOrFetchMeta(entries, key, now, typ);
              && a.value == b.value == entries[key].value && a.isStale == b.meta.isStale && a.refresh == b.refresh
              && (a.isStale <==> a.refresh)
              && (!a.isStale <==> now <= entries[key].expiresAt)
              && b.meta.age == (if now < entries[key].fetchedAt then 0 else now - entries[key].fetchedAt)
              && b.meta.fetchedAt == entries[key].fetchedAt && b.meta.expiresAt == entries[key].expiresAt
    ensures GetOrFetch(entries, key, now, typ).Miss? <==> key !in entries
    ensures GetOrFetch(entries, key, now, typ).TypeMismatch? <==> key in entries && entries[key].value.typ != typ
  {
  }

  // ------------------------------------------------------------ invalidation

  datatype Event =
    | Restart | Deploy | RemoveSubdomain | ChangeNodeVersion | SetupSSL | RenewSSL | RemoveSSL
    | OtherEvent(name: string)

  function PrefixesFor(e: Event): seq<string> {
    match e
    case Restart => ["http:"]
    case Deploy => ["http:", "gh:lastDeploy:", "gh:steps:"]
    case RemoveSubdomain => ["http:"]
    case ChangeNodeVersion => ["ssh:node:"]
    case SetupSSL => ["ssl:"]
    case RenewSSL => ["ssl:"]
    case RemoveSSL => ["ssl:"]
    case OtherEvent(_) => []
  }

  function Matching(entries: Entries, prefix: string): set<string> {
    set k | k in entries && prefix <= k
  }

  function MatchingAny(entries: Entries, prefixes: seq<string>): set<string> {
    set k | k in entries && exists p :: p in prefixes && p <= k
  }

  /** The keys one more prefix removes are new ones. */
  lemma MatchingOneMore(entries: Entries, prefixes: seq<string>, p: string)
    ensures var before := MatchingAny(entries, prefixes);
            var now := Matching(entries - before, p);
            before !! now && MatchingAny(entries, prefixes + [p]) == before + now
  {
    var before := MatchingAny(entries, prefixes);
    var now := Matching(entries - before, p);
    forall k | k in entries ensures k in MatchingAny(entries, prefixes + [p]) <==> k in before || k in now {
      if k in before {
        var q :| q in prefixes && q <= k;
        assert q in prefixes + [p];
      }
      if p <= k { assert p in prefixes + [p]; }
    }
  }

  /** The cache and its single-flight group.  The ghost fields record the fetches behind the entries. */
  class Cache {
    var entries: Entries
    var group: map<string, CallId>
    var calls: map<CallId, Call>
    var next: CallId
    ghost var fetched: map<CallId, Fetched>
    ghost var source: map<string, CallId>

    ghost function View(): Sys
      reads this
    {
      Sys(entries, group, calls, next, fetched, source)
    }

    constructor ()
      ensures View() == EMPTY && Inv(View())
    {
      entries, group, calls, next := map[], map[], map[], 0;
      fetched, source := map[], map[];
    }

    /** Entering singleflight.Do: join the call of this key, or start the only one. */
    method Join(key: string, ttl: int) returns (id: CallId, started: bool)
      requires Inv(View())
      modifies this
      ensures View() == Apply(old(View()), Do(key, ttl)) && Inv(View())
      ensures id in calls && calls[id].key == key && (started <==> key !in old(group))
      ensures forall other :: other in calls && calls[other].key == key ==> other == id
    {
      InvStep(View(), Do(key, ttl));
      if key in group { return group[key], false; }
      id, started := next, true;
      group, calls, next := group[key := id], calls[id := Call(key, ttl, true)], next + 1;
    }

    /** The body of a call after its fetch returned a value. */
    method FetchSucceeded(id: CallId, value: Value, now: Time)
      requires Inv(View()) && id in calls && calls[id].running
      modifies this
      ensures View() == Apply(old(View()), FetchOk(id, value, now)) && Inv(View())
    {
      ghost var before := View();
      var call := calls[id];
      calls := calls[id := call.(running := false)];
      entries := entries[call.key := Entry(value, now, now + call.ttl)];
      fetched, source := fetched[id := Fetched(call.key, value, call.ttl, now)], source[call.key := id];
      InvStep(before, FetchOk(id, value, now));
    }

    /** The same after it returned an error. */
    method FetchFailed(id: CallId)
      requires Inv(View()) && id in calls && calls[id].running
      modifies this
      ensures View() == Apply(old(View()), FetchErr(id)) && Inv(View()) && entries == old(entries)
    {
      InvStep(View(), FetchErr(id));
      calls := calls[id := calls[id].(running := false)];
    }

    /** Do returns: the key is forgotten, and the next lookup may start a call again. */
    method Leave(id: CallId)
      requires Inv(View()) && id in calls && !calls[id].running
      modifies this
      ensures View() == Apply(old(View()), Finish(id)) && Inv(View()) && old(calls)[id].key !in group
    {
      InvStep(View(), Finish(id));
      group, calls := group - {calls[id].key}, calls - {id};
    }

    method Invalidate(prefix: string) returns (removed: nat)
      modifies this`entries
      ensures View() == Apply(old(View()), Drop(prefix)) && (old(Inv(View())) ==> Inv(View()))
      ensures entries == old(entries) - Matching(old(entries), prefix)
      ensures removed == |Matching(old(entries), prefix)|
    {
      removed := 0;
      var todo := entries.Keys;
      ghost var gone: set<string> := {};
      while todo != {}
        invariant todo <= old(entries).Keys
        invariant gone == set k | k in old(entries) && k !in todo && prefix <= k
        invariant entries == old(entries) - gone
        invariant removed == |gone|
        decreases todo
      {
        var key :| key in todo;
        todo := todo - {key};
        if prefix <= key {
          entries := entries - {key};
          removed := removed + 1;
          gone := gone + {key};
        }
      }
      assert gone == Matching(old(entries), prefix);
      if old(Inv(View())) { ShrinkKeepsInv(old(View()), gone); }
    }

    /** Undisturbed, the sum of the per-prefix counts is the number of distinct keys that
        match any affected prefix: no key is counted twice. */
    method InvalidateEvent(event: Event) returns (removed: nat)
      modifies this`entries
      ensures old(Inv(View())) ==> Inv(View())
      ensures entries == old(entries) - MatchingAny(old(entries), PrefixesFor(event))
      ensures removed == |MatchingAny(old(entries), PrefixesFor(event))|
    {
      var prefixes := PrefixesFor(event);
      removed := InvalidateEach(prefixes);
    }

    method InvalidateEach(prefixes: seq<string>) returns (removed: nat)
      modifies this`entries
      ensures old(Inv(View())) ==> Inv(View())
      ensures entries == old(entries) - MatchingAny(old(entries), prefixes)
      ensures removed == |MatchingAny(old(entries), prefixes)|
    {
      removed := 0;
      for i := 0 to |prefixes|
        invariant entries == old(entries) - MatchingAny(old(entries), prefixes[..i])
        invariant removed == |MatchingAny(old(entries), prefixes[..i])|
      {
        assert prefixes[..i + 1] == prefixes[..i] + [prefixes[i]];
        MatchingOneMore(old(entries), prefixes[..i], prefixes[i]);
        var n := Invalidate(prefixes[i]);
        removed := removed + n;
      }
      assert prefixes[..|prefixes|] == prefixes;
      if old(Inv(View())) { ShrinkKeepsInv(old(View()), MatchingAny(old(entries), prefixes)); }
    }
  }

  // ------------------------------------------- an event handled while fetches land

  /** InvalidateEvent unlocks between prefixes.  `at[j]` is what the cache holds when the section of
      prefix j runs: anything may have been stored or removed since the one before. */
  function SumRemoved(at: seq<Entries>, prefixes: seq<string>): nat
    requires |at| == |prefixes|
  {
    if at == [] then 0
    else SumRemoved(at[..|at| - 1], prefixes[..|at| - 1]) + |Matching(at[|at| - 1], prefixes[|at| - 1])|
  }

  function AllRemoved(at: seq<Entries>, prefixes: seq<string>): set<string>
    requires |at| == |prefixes|
  {
    if at == [] then {}
    else AllRemoved(at[..|at| - 1], prefixes[..|at| - 1]) + Matching(at[|at| - 1], prefixes[|at| - 1])
  }

  predicate Incomparable(prefixes: seq<string>) {
    forall i, j :: 0 <= i < j < |prefixes| ==> !(prefixes[i] <= prefixes[j]) && !(prefixes[j] <= prefixes[i])
  }

  lemma EventPrefixesAreIncomparable(e: Event)
    ensures Incomparable(PrefixesFor(e))
  {
    assert "http:"[0] != "gh:lastDeploy:"[0] && "http:"[0] != "gh:steps:"[0];
    assert "gh:lastDeploy:"[3] != "gh:steps:"[3];
  }

  /** Which family of keys an event invalidates, and that it leaves all others alone. */
  lemma EventDropsIff(event: Event, key: string)
    ensures var drops := exists p :: p in PrefixesFor(event) && p <= key;
            && ("http:" <= key ==> (drops <==> event in {Restart, Deploy, RemoveSubdomain}))
            && ("gh:lastDeploy:" <= key || "gh:steps:" <= key ==> (drops <==> event == Deploy))
            && ("ssh:node:" <= key ==> (drops <==> event == ChangeNodeVersion))
            && ("ssl:" <= key ==> (drops <==> event in {SetupSSL, RenewSSL, RemoveSSL}))
            && (drops ==> "http:" <= key || "gh:lastDeploy:" <= key || "gh:steps:" <= key
                          || "ssh:node:" <= key || "ssl:" <= key)
  {
    FamiliesDiffer(key);
    var ps := PrefixesFor(event);
    assert |ps| > 0 ==> ps[0] in ps;
    assert |ps| > 2 ==> ps[1] in ps && ps[2] in ps;
    assert forall p :: p in ps <==> exists i :: 0 <= i < |ps| && ps[i] == p;
  }

  lemma FamiliesDiffer(key: string)
    ensures "http:" <= key ==> key[0] == 'h'
    ensures "gh:lastDeploy:" <= key ==> key[0] == 'g' && key[3] == 'l'
    ensures "gh:steps:" <= key ==> key[0] == 'g' && key[3] == 's'
    ensures "ssh:node:" <= key ==> key[0] == 's' && key[2] == 'h'
    ensures "ssl:" <= key ==> key[0] == 's' && key[2] == 'l'
  {
    assert "http:" <= key ==> key[0] == "http:"[0];
    assert "gh:lastDeploy:" <= key ==> key[0] == "gh:lastDeploy:"[0] && key[3] == "gh:lastDeploy:"[3];
    assert "gh:steps:" <= key ==> key[0] == "gh:steps:"[0] && key[3] == "gh:steps:"[3];
    assert "ssh:node:" <= key ==> key[0] == "ssh:node:"[0] && key[2] == "ssh:node:"[2];
    assert "ssl:" <= key ==> key[0] == "ssl:"[0] && key[2] == "ssl:"[2];
  }

  lemma {:induction false} RemovedHasAPrefix(at: seq<Entries>, prefixes: seq<string>, k: string)
    requires |at| == |prefixes| && k in AllRemoved(at, prefixes)
    ensures exists j :: 0 <= j < |prefixes| && prefixes[j] <= k
    decreases |at|
  {
    var n := |at| - 1;
    if k in AllRemoved(at[..n], prefixes[..n]) {
      RemovedHasAPrefix(at[..n], prefixes[..n], k);
      var j :| 0 <= j < n && prefixes[..n][j] <= k;
      assert prefixes[j] <= k;
    } else {
      assert prefixes[n] <= k;
    }
  }

  lemma NoCommonKey(a: string, b: string, k: string)
    requires !(a <= b) && !(b <= a) && a <= k
    ensures !(b <= k)
  {
  }

  lemma {:induction false} SumIsExact(at: seq<Entries>, prefixes: seq<string>)
    requires |at| == |prefixes| && Incomparable(prefixes)
    ensures SumRemoved(at, prefixes) == |AllRemoved(at, prefixes)|
    decreases |at|
  {
    if at != [] {
      var n := |at| - 1;
      SumIsExact(at[..n], prefixes[..n]);
      forall k | k in AllRemoved(at[..n], prefixes[..n]) ensures k !in Matching(at[n], prefixes[n]) {
        LastIsNew(at, prefixes, n, k);
      }
    }
  }

  lemma LastIsNew(at: seq<Entries>, prefixes: seq<string>, n: nat, k: string)
    requires |at| == |prefixes| == n + 1 && Incomparable(prefixes) && k in AllRemoved(at[..n], prefixes[..n])
    ensures k !in Matching(at[n], prefixes[n])
  {
    RemovedHasAPrefix(at[..n], prefixes[..n], k);
    var j :| 0 <= j < n && prefixes[..n][j] <= k;
    NoCommonKey(prefixes[j], prefixes[n], k);
  }

  /** Whatever lands between its sections, the number InvalidateEvent returns is the number of distinct
      keys it removed: the prefixes of one event never match the same key. */
  lemma EventCountIsExact(event: Event, at: seq<Entries>)
    requires |at| == |PrefixesFor(event)|
    ensures SumRemoved(at, PrefixesFor(event)) == |AllRemoved(at, PrefixesFor(event))|
  {
    EventPrefixesAreIncomparable(event);
    SumIsExact(at, PrefixesFor(event));
  }

  // --------------------------------------------------- concurrent lookups and fetches

  type CallId = nat

  /** One execution of the function handed to singleflight.Do. */
  datatype Call = Call(key: string, ttl: int, running: bool)   // running: the fetch has not returned yet

  /** A successful fetch: of which key, what, for how long, returned when. */
  datatype Fetched = Fetched(key: string, value: Value, ttl: int, at: Time)

  datatype Sys = Sys(
    entries: Entries,
    group: map<string, CallId>,   // singleflight.Group
    calls: map<CallId, Call>,     // calls whose Do has not finished
    next: CallId,
    fetched: map<CallId, Fetched>,           // the successful fetches
    source: map<string, CallId>)             // which call stored the entry of a key

  datatype Step =
    | Do(key: string, ttl: int)               // join the call of this key, or start one
    | FetchOk(id: CallId, value: Value, now: Time)
    | FetchErr(id: CallId)
    | Finish(id: CallId)                      // Do forgets the key
    | Drop(prefix: string)

  const EMPTY := Sys(map[], map[], map[], 0, map[], map[])

  predicate Enabled(s: Sys, st: Step) {
    match st
    case Do(_, _) => true
    case FetchOk(id, _, _) => id in s.calls && s.calls[id].running
    case FetchErr(id) => id in s.calls && s.calls[id].running
    case Finish(id) => id in s.calls && !s.calls[id].running
    case Drop(_) => true
  }

  function Apply(s: Sys, st: Step): Sys
    requires Enabled(s, st)
  {
    match st
    case Do(key, ttl) =>
      if key in s.group then s
      else s.(group := s.group[key := s.next], calls := s.calls[s.next := Call(key, ttl, true)], next := s.next + 1)
    case FetchOk(id, value, now) =>
      var c := s.calls[id];
      s.(entries := s.entries[c.key := Entry(value, now, now + c.ttl)],
         calls := s.calls[id := c.(running := false)],
         fetched := s.fetched[id := Fetched(c.key, value, c.ttl, now)], source := s.source[c.key := id])
    case FetchErr(id) => s.(calls := s.calls[id := s.calls[id].(running := false)])
    case Finish(id) => s.(group := s.group - {s.calls[id].key}, calls := s.calls - {id})
    case Drop(prefix) => s.(entries := s.entries - Matching(s.entries, prefix))
  }

  ghost predicate RunFrom(s: Sys, steps: seq<Step>, s': Sys)
    decreases |steps|
  {
    if steps == [] then s' == s
    else Enabled(s, steps[0]) && RunFrom(Apply(s, steps[0]), steps[1..], s')
  }

  ghost predicate Inv(s: Sys) {
    // The group and the calls mirror each other.
    && (forall k :: k in s.group ==> s.group[k] in s.calls && s.calls[s.group[k]].key == k)
    && (forall id :: id in s.calls ==> s.calls[id].key in s.group && s.group[s.calls[id].key] == id && id < s.next)
    // A call stores once, when its fetch returns.
    && (forall id :: id in s.fetched ==> id < s.next && (id in s.calls ==> !s.calls[id].running))
    // Every entry is what some successful fetch of its key stored.
    && (forall k :: k in s.entries ==> Sourced(s, k))
  }

  ghost predicate Sourced(s: Sys, k: string)
    requires k in s.entries
  {
    k in s.source && s.source[k] in s.fetched && Stored(s.fetched[s.source[k]], k, s.entries[k])
  }

  ghost predicate Stored(f: Fetched, k: string, e: Entry) {
    f.key == k && e == Entry(f.value, f.at, f.at + f.ttl)
  }

  /** Every step keeps the invariant; only a successful fetch and an invalidation change
      the entries, so a failed fetch never does. */
  lemma InvStep(s: Sys, st: Step)
    requires Inv(s) && Enabled(s, st)
    ensures Inv(Apply(s, st))
    ensures !st.FetchOk? && !st.Drop? ==> Apply(s, st).entries == s.entries
  {
    var s' := Apply(s, st);
    forall k | k in s'.entries ensures Sourced(s', k) {
      if k in s.entries { assert Sourced(s, k); }
    }
  }

  lemma ShrinkKeepsInv(s: Sys, gone: set<string>)
    requires Inv(s)
    ensures Inv(s.(entries := s.entries - gone))
  {
    var s' := s.(entries := s.entries - gone);
    forall k | k in s'.entries ensures Sourced(s', k) { assert Sourced(s, k); }
  }

  /** What a returning fetch means for later lookups.  A success is what both getters serve for its
      key, fresh for its ttl and then stale with a refresh; a failure changes no answer at all; and
      other keys are answered as before. */
  lemma FetchIsServed(s: Sys, id: CallId, result: Option<Value>, now: Time)
    requires id in s.calls && s.calls[id].running
    ensures var c, s' := s.calls[id], Apply(s, if result.Some? then FetchOk(id, result.value, now) else FetchErr(id));
            && (result.Some? ==> forall t :: GetOrFetch(s'.entries, c.key, t, result.value.typ)
                                             == Hit(result.value, t > now + c.ttl, t > now + c.ttl))
            && (forall k, t, typ :: result.None? || k != c.key ==>
                  GetOrFetch(s'.entries, k, t, typ) == GetOrFetch(s.entries, k, t, typ))
  {
  }

  /** The life of a call: a lookup can always start or join one; a started call fetches, whatever its
      fetch answers ends it, and once it has left, the key can be fetched again. */
  lemma LifeOfACall(s: Sys, key: string, ttl: int, value: Value, now: Time, ok: bool)
    requires Inv(s) && key !in s.group
    ensures Enabled(s, Do(key, ttl))
    ensures var id, s1 := s.next, Apply(s, Do(key, ttl));
            && id in s1.calls && s1.calls[id] == Call(key, ttl, true)
            && Apply(s1, Do(key, ttl)) == s1
            && Enabled(s1, FetchOk(id, value, now)) && Enabled(s1, FetchErr(id)) && !Enabled(s1, Finish(id))
            && var s2 := Apply(s1, if ok then FetchOk(id, value, now) else FetchErr(id));
               Enabled(s2, Finish(id)) && !Enabled(s2, FetchErr(id)) && key !in Apply(s2, Finish(id)).group
  {
  }

  lemma {:induction false} InvRun(s: Sys, steps: seq<Step>, s': Sys)
    requires RunFrom(s, steps, s') && Inv(s)
    ensures Inv(s')
    decreases |steps|
  {
    if steps != [] {
      InvStep(s, steps[0]);
      InvRun(Apply(s, steps[0]), steps[1..], s');
    }
  }

  /** Over every interleaving at most one fetch per key is in flight, and every entry is
      the result a successful fetch of that very key stored, expiring its ttl after it. */
  lemma SingleFlight(steps: seq<Step>, s: Sys)
    requires RunFrom(EMPTY, steps, s)
    ensures forall a, b :: a in s.calls && b in s.calls && s.calls[a].key == s.calls[b].key ==> a == b
    ensures forall k :: k in s.entries ==>
              exists id :: id in s.fetched && Stored(s.fetched[id], k, s.entries[k])
  {
    InvRun(EMPTY, steps, s);
    forall k | k in s.entries ensures exists id :: id in s.fetched && Stored(s.fetched[id], k, s.entries[k]) {
      assert Sourced(s, k);
    }
  }

  /** Stale while revalidate: a cached key keeps being served, through failing refreshes
      too, until an invalidation whose prefix it matches. */
  lemma {:induction false} ServedUntilInvalidated(s: Sys, steps: seq<Step>, s': Sys, k: string)
    requires RunFrom(s, steps, s') && k in s.entries
    requires forall i :: 0 <= i < |steps| && steps[i].Drop? ==> !(steps[i].prefix <= k)
    ensures k in s'.entries
    decreases |steps|
  {
    if steps != [] {
      ServedUntilInvalidated(Apply(s, steps[0]), steps[1..], s', k);
    }
  }

  // ----------------------------------------------- what invalidation does not stop

  ghost predicate InFlight(s: Sys, prefix: string) {
    exists id :: id in s.calls && s.calls[id].running && prefix <= s.calls[id].key
  }

  /** Some continuation caches, under the prefix, a result whose fetch had already started. */
  ghost predicate CanResurface(s: Sys, prefix: string) {
    exists steps, s', k :: RunFrom(s, steps, s') && OldEntry(s, s', prefix, k)
  }

  ghost predicate OldEntry(s: Sys, s': Sys, prefix: string, k: string) {
    prefix <= k && k in s'.entries && k in s'.source && s'.source[k] < s.next
  }

  /** Invalidation empties a prefix now, but a fetch begun before it may still land after
      it: that can happen exactly when one is in flight for a matching key. */
  lemma InvalidationIsFinalIff(s: Sys, prefix: string)
    requires Inv(s)
    ensures CanResurface(Apply(s, Drop(prefix)), prefix) <==> InFlight(s, prefix)
  {
    var d := Apply(s, Drop(prefix));
    InvStep(s, Drop(prefix));
    if InFlight(s, prefix) {
      var id :| id in s.calls && s.calls[id].running && prefix <= s.calls[id].key;
      var st := FetchOk(id, Value(0, 0), 0);
      var d' := Apply(d, st);
      assert [st][1..] == [];
      assert RunFrom(d', [], d');
      assert RunFrom(d, [st], d');
      assert OldEntry(d, d', prefix, s.calls[id].key);
    } else {
      forall steps, s', k | RunFrom(d, steps, s') ensures !OldEntry(d, s', prefix, k) {
        NothingOldReturns(d, steps, s', prefix, k, d.next);
      }
    }
  }

  /** No entry under the prefix comes from a call before `n`, and none is under way. */
  ghost predicate Cleared(s: Sys, prefix: string, n: CallId) {
    && (forall k :: prefix <= k && k in s.entries && k in s.source ==> s.source[k] >= n)
    && (forall id :: id in s.calls && s.calls[id].running && prefix <= s.calls[id].key ==> id >= n)
  }

  lemma {:induction false} NothingOldReturns(s: Sys, steps: seq<Step>, s': Sys, prefix: string, k: string, n: CallId)
    requires RunFrom(s, steps, s') && Cleared(s, prefix, n) && n <= s.next
    ensures !(prefix <= k && k in s'.entries && k in s'.source && s'.source[k] < n)
    decreases |steps|
  {
    if steps != [] {
      var s1 := Apply(s, steps[0]);
      assert Cleared(s1, prefix, n);
      NothingOldReturns(s1, steps[1..], s', prefix, k, n);
    }
  }
}
