/** The global in-flight limiter (ssh/inflight.go) with any number of calls of
    ExecWithRetryLimited (ssh/retry.go) going through it at once. */
module Inflight {
  import opened RetryBackoff

  const FLOOR := 8

  function Budget(profiles: int): int { if profiles / 2 > FLOOR then profiles / 2 else FLOOR }

  /** The limiter as an object: a weighted semaphore of which every caller takes one unit. */
  class InflightLimiter {
    const budget: int
    var used: int

    ghost predicate Valid()
      reads this
    {
      0 <= used <= budget
    }

    constructor (profiles: int)
      ensures Valid() && used == 0 && budget == Budget(profiles)
    {
      var n := if profiles < 0 then 0 else profiles;
      var half := n / 2;
      budget := if half < FLOOR then FLOOR else half;
      used := 0;
    }

    /** TryAcquire, and the moment a blocked Acquire gets its slot. */
    method TryAcquire() returns (ok: bool)
      requires Valid()
      modifies this
      ensures Valid() && (ok <==> old(used) < budget) && used == old(used) + (if ok then 1 else 0)
    {
      ok := used < budget;
      if ok { used := used + 1; }
    }

    /** Without an Acquire before it this would underflow. */
    method Release()
      requires Valid() && used > 0
      modifies this
      ensures Valid() && used == old(used) - 1
    {
      used := used - 1;
    }
  }

  // -------------------------------------------------------------- many calls

  type CallId = nat

  /** Where a call of ExecWithRetryLimited stands. */
  datatype Phase =
    | Asking                              // blocked in Acquire
    | GaveUp                              // its context was done first
    | Looping(i: nat, t: Tally)           // about to make attempt i
    | Leaving(final: Final, t: Tally)     // the loop is over, the deferred Release is due
    | Returned(final: Final, t: Tally)

  /** The semaphore keeps a count only; it does not know who holds its units. */
  datatype Sys = Sys(used: int, calls: map<CallId, Phase>)

  /** What each call was given, and the world it meets. */
  datatype Setting = Setting(profiles: int, policy: CallId -> Policy, world: CallId -> World)

  datatype Event = Ask(c: CallId) | Grant(c: CallId) | GiveUp(c: CallId) | Try(c: CallId) | Return(c: CallId)

  const IDLE := Sys(0, map[])

  predicate Enabled(g: Setting, s: Sys, e: Event) {
    match e
    case Ask(c) => c !in s.calls
    case Grant(c) => c in s.calls && s.calls[c].Asking? && s.used < Budget(g.profiles)
    case GiveUp(c) => c in s.calls && s.calls[c].Asking?
    case Try(c) => c in s.calls && s.calls[c].Looping?
    case Return(c) => c in s.calls && s.calls[c].Leaving?
  }

  function PolicyOf(g: Setting, c: CallId): Policy { Normalize(g.policy(c)) }

  function AfterAttempt(g: Setting, c: CallId, i: nat, t: Tally): Phase {
    if i >= PolicyOf(g, c).attempts then Leaving(FellThrough, t)
    else
      match Attempt(PolicyOf(g, c), g.world(c), i, t)
      case Again(t') => Looping(i + 1, t')
      case Stop(final, t') => Leaving(final, t')
  }

  function Apply(g: Setting, s: Sys, e: Event): Sys
    requires Enabled(g, s, e)
  {
    match e
    case Ask(c) => s.(calls := s.calls[c := Asking])
    case Grant(c) => Sys(s.used + 1, s.calls[c := Looping(0, ZERO)])
    case GiveUp(c) => s.(calls := s.calls[c := GaveUp])
    case Try(c) => s.(calls := s.calls[c := AfterAttempt(g, c, s.calls[c].i, s.calls[c].t)])
    case Return(c) => Sys(s.used - 1, s.calls[c := Returned(s.calls[c].final, s.calls[c].t)])
  }

  ghost predicate RunFrom(g: Setting, s: Sys, es: seq<Event>, s': Sys)
    decreases |es|
  {
    if es == [] then s' == s
    else Enabled(g, s, es[0]) && RunFrom(g, Apply(g, s, es[0]), es[1..], s')
  }

  /** The calls between their Grant and their Return. */
  function Inside(calls: map<CallId, Phase>): set<CallId> {
    set c | c in calls && (calls[c].Looping? || calls[c].Leaving?)
  }

  /** What a call ends with if it is alone in the world. */
  function Alone(g: Setting, c: CallId): (Final, Tally) { RetryFrom(PolicyOf(g, c), g.world(c), 0, ZERO) }

  /** A call is on the way to, or at, the result it would have alone. */
  ghost predicate OnTrack(g: Setting, c: CallId, ph: Phase) {
    match ph
    case Looping(i, t) => i <= PolicyOf(g, c).attempts && RetryFrom(PolicyOf(g, c), g.world(c), i, t) == Alone(g, c)
    case Leaving(final, t) => (final, t) == Alone(g, c)
    case Returned(final, t) => (final, t) == Alone(g, c)
    case _ => true
  }

  ghost predicate Inv(g: Setting, s: Sys) {
    && s.used == |Inside(s.calls)| <= Budget(g.profiles)
    && forall c :: c in s.calls ==> OnTrack(g, c, s.calls[c])
  }

  lemma InsideUpdate(calls: map<CallId, Phase>, c: CallId, ph: Phase)
    ensures var before := |Inside(calls)| - (if c in Inside(calls) then 1 else 0);
            |Inside(calls[c := ph])| == before + (if ph.Looping? || ph.Leaving? then 1 else 0)
  {
    var rest := Inside(calls) - {c};
    assert Inside(calls[c := ph]) == if ph.Looping? || ph.Leaving? then rest + {c} else rest;
    assert Inside(calls) == if c in Inside(calls) then rest + {c} else rest;
  }

  lemma InvStep(g: Setting, s: Sys, e: Event)
    requires Inv(g, s) && Enabled(g, s, e)
    ensures Inv(g, Apply(g, s, e))
  {
    var s' := Apply(g, s, e);
    assert OnTrack(g, e.c, s'.calls[e.c]) by { if e.c in s.calls { assert OnTrack(g, e.c, s.calls[e.c]); } }
    InsideUpdate(s.calls, e.c, s'.calls[e.c]);
  }

  lemma {:induction false} InvRun(g: Setting, s: Sys, es: seq<Event>, s': Sys)
    requires RunFrom(g, s, es, s') && Inv(g, s)
    ensures Inv(g, s')
    decreases |es|
  {
    if es != [] {
      InvStep(g, s, es[0]);
      InvRun(g, Apply(g, s, es[0]), es[1..], s');
    }
  }

  // ---------------------------------------------------------------- theorems

  /** Over every interleaving of any number of calls, the semaphore's count is exactly the number of
      calls between their Grant and their Return, and at most max(8, profiles/2) of them are. */
  lemma SlotsAreAccounted(g: Setting, es: seq<Event>, s: Sys)
    requires RunFrom(g, IDLE, es, s)
    ensures s.used == |Inside(s.calls)| <= Budget(g.profiles)
    ensures forall c :: Enabled(g, s, Return(c)) ==> s.used > 0
  {
    assert Inside(IDLE.calls) == {};
    InvRun(g, IDLE, es, s);
    forall c | Enabled(g, s, Return(c)) ensures s.used > 0 {
      assert c in Inside(s.calls);
    }
  }

  /** Whatever the other calls do, a call that returned has the result it would have alone, so its
      counters are conserved; and once all calls gave up or returned, every slot is free again. */
  lemma CallsDoNotInterfere(g: Setting, es: seq<Event>, s: Sys)
    requires RunFrom(g, IDLE, es, s)
    ensures forall c :: c in s.calls && s.calls[c].Returned? ==> (s.calls[c].final, s.calls[c].t) == Alone(g, c)
    ensures forall c :: c in s.calls && s.calls[c].Returned? ==> s.calls[c].final != FellThrough
    ensures (forall c :: c in s.calls ==> s.calls[c].GaveUp? || s.calls[c].Returned?) ==> s.used == 0
  {
    assert Inside(IDLE.calls) == {};
    InvRun(g, IDLE, es, s);
    forall c | c in s.calls && s.calls[c].Returned?
      ensures (s.calls[c].final, s.calls[c].t) == Alone(g, c) && s.calls[c].final != FellThrough
    {
      assert OnTrack(g, c, s.calls[c]);
      RetryInvariant(PolicyOf(g, c), g.world(c), 0, ZERO);
    }
    if forall c :: c in s.calls ==> s.calls[c].GaveUp? || s.calls[c].Returned? {
      assert Inside(s.calls) == {};
    }
  }

  /** A blocked call is never blocked for nothing: it can be granted a slot, or all slots are with
      calls that can go on. */
  lemma BlockedCallHasAHolder(g: Setting, es: seq<Event>, s: Sys, c: CallId)
    requires RunFrom(g, IDLE, es, s) && c in s.calls && s.calls[c].Asking?
    ensures Enabled(g, s, GiveUp(c))
    ensures Enabled(g, s, Grant(c))
            || (|Inside(s.calls)| == Budget(g.profiles)
                && forall h :: h in Inside(s.calls) ==> Enabled(g, s, Try(h)) || Enabled(g, s, Return(h)))
  {
    assert Inside(IDLE.calls) == {};
    InvRun(g, IDLE, es, s);
  }

  /** The loop of a call ends: it is on its way out after at most Attempts attempts. */
  lemma AttemptsAreBounded(g: Setting, c: CallId, i: nat, t: Tally)
    requires i < PolicyOf(g, c).attempts
    ensures var ph := AfterAttempt(g, c, i, t);
            ph.Leaving? || (ph.Looping? && ph.i == i + 1 && i + 1 < PolicyOf(g, c).attempts)
  {
  }
}
