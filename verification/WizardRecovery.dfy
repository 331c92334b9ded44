/** Cleanup steps across crashes, resumes and further wizards.

    Steps are numbered in the order Push is called on them.  One wizard at a time pushes, pops and
    runs what it popped; the process may crash at any moment; a new stack may be opened empty over
    any file, or loaded with any list of earlier steps, read whenever; the file may be removed; and
    every persist may end in any of its three ways. */
module WizardRecovery {
  import opened Wrappers
  import opened WizardStack

  type Id = nat

  datatype Hand = Nothing | Taken(id: Id)   // popped, persisted, not yet run

  datatype Ledger = Ledger(
    store: Store<Id>,
    up: bool,            // a process is alive with a stack
    hand: Hand,
    next: Id,            // steps 0 .. next-1 were given to Push
    refused: set<Id>,    // Push failed before its rename: the step never existed anywhere
    ran: seq<Id>)        // steps handed to the runner, in order

  datatype Event =
    | PushEvent(o: Outcome)
    | PopEvent(o: Outcome)
    | RunEvent
    | Crash
    | NewWizard               // NewStack: empty memory, the file stays
    | Load(list: seq<Id>)     // NewStack and LoadSnapshot of a list read at some earlier time
    | Forget(done: bool)      // RemovePending

  const INIT := Ledger(Store([], []), true, Nothing, 0, {}, [])

  predicate Enabled(l: Ledger, e: Event) {
    match e
    case PushEvent(_) => l.up && l.hand.Nothing?
    case PopEvent(_) => l.up && l.hand.Nothing? && l.store.mem != []
    case RunEvent => l.up && l.hand.Taken?
    case Crash => l.up
    case NewWizard => l.hand.Nothing?
    case Load(list) => l.hand.Nothing? && forall i :: 0 <= i < |list| ==> list[i] < l.next && list[i] !in l.refused
    case Forget(_) => l.hand.Nothing?
  }

  function Apply(l: Ledger, e: Event): Ledger
    requires Enabled(l, e)
  {
    match e
    case PushEvent(o) =>
      l.(store := Push(l.store, l.next, o), next := l.next + 1,
         refused := if o.FailedBefore? then l.refused + {l.next} else l.refused)
    case PopEvent(o) =>
      // Rollback runs the step only when Pop reported no error.
      l.(store := Pop(l.store, o), hand := if o.Durable? then Taken(l.store.mem[|l.store.mem| - 1]) else Nothing)
    case RunEvent => l.(hand := Nothing, ran := l.ran + [l.hand.id])
    case Crash => l.(store := Store([], l.store.disk), up := false, hand := Nothing)
    case NewWizard => l.(store := Store([], l.store.disk), up := true)
    case Load(list) => l.(store := Store(list, l.store.disk), up := true)
    case Forget(done) => if done then l.(store := Store(l.store.mem, [])) else l
  }

  ghost predicate RunFrom(l: Ledger, es: seq<Event>, l': Ledger)
    decreases |es|
  {
    if es == [] then l' == l
    else Enabled(l, es[0]) && RunFrom(Apply(l, es[0]), es[1..], l')
  }

  lemma {:induction false} RunMore(l: Ledger, es: seq<Event>, m: Ledger, e: Event)
    requires RunFrom(l, es, m) && Enabled(m, e)
    ensures RunFrom(l, es + [e], Apply(m, e))
    decreases |es|
  {
    if es == [] {
      assert [e][1..] == [];
      assert RunFrom(Apply(m, e), [], Apply(m, e));
      assert es + [e] == [e];
    } else {
      RunMore(Apply(l, es[0]), es[1..], m, e);
      assert (es + [e])[1..] == es[1..] + [e];
    }
  }

  lemma {:induction false} RunAppend(l: Ledger, a: seq<Event>, m: Ledger, b: seq<Event>, l': Ledger)
    requires RunFrom(l, a, m) && RunFrom(m, b, l')
    ensures RunFrom(l, a + b, l')
    decreases |a|
  {
    if a == [] {
      assert a + b == b;
    } else {
      RunAppend(Apply(l, a[0]), a[1..], m, b, l');
      assert (a + b)[1..] == a[1..] + b;
    }
  }

  // -------------------------------------------------------------- where steps are

  predicate NoRepeats(s: seq<Id>) { forall i, j :: 0 <= i < j < |s| ==> s[i] != s[j] }

  /** The step is in the file, in memory, in hand, was run, or was refused. */
  predicate Somewhere(l: Ledger, x: Id) {
    x in l.store.disk || x in l.store.mem || l.hand == Taken(x) || x in l.ran || x in l.refused
  }

  ghost predicate IsLost(l: Ledger, x: Id) { x < l.next && !Somewhere(l, x) }

  ghost predicate NothingLost(l: Ledger) { forall x: Id :: !IsLost(l, x) }

  /** Kept by every event. */
  ghost predicate Inv(l: Ledger) {
    && (forall x: Id :: Somewhere(l, x) ==> x < l.next)
    && (forall x: Id :: x in l.refused ==> x !in l.store.disk && x !in l.store.mem && l.hand != Taken(x) && x !in l.ran)
    && (!l.up ==> l.store.mem == [] && l.hand.Nothing?)
  }

  lemma LastOf(s: seq<Id>)
    requires s != []
    ensures s == s[..|s| - 1] + [s[|s| - 1]]
  {
  }

  lemma StepKeeps(l: Ledger, e: Event)
    requires Inv(l) && Enabled(l, e)
    ensures Inv(Apply(l, e))
  {
    var l' := Apply(l, e);
    if e.PopEvent? { LastOf(l.store.mem); }
    assert !Somewhere(l, l.next);
    forall x: Id | Somewhere(l', x) ensures x < l'.next {
      assert Somewhere(l, x) || (e.PushEvent? && x == l.next) || (e.Load? && x in e.list);
    }
  }

  // --------------------------------------------------------------------- losses

  /** Every step of `a` is in `b` or was run. */
  predicate Covered(a: seq<Id>, b: seq<Id>, l: Ledger) { forall i :: 0 <= i < |a| ==> a[i] in b || a[i] in l.ran }

  /** When an event loses nothing, read off the state before it. */
  predicate KeepsAll(l: Ledger, e: Event)
    requires Enabled(l, e)
  {
    match e
    case PushEvent(o) => o.FailedBefore? || Covered(l.store.disk, l.store.mem, l)
    case PopEvent(o) =>
      var rest, last := l.store.mem[..|l.store.mem| - 1], l.store.mem[|l.store.mem| - 1];
      (match o
       case Durable => Covered(l.store.disk, l.store.mem, l)
       case FailedBefore => last in rest || last in l.store.disk || last in l.ran
       case FailedAfter => Covered(l.store.disk, rest, l) && (last in rest || last in l.ran))
    case RunEvent => true
    case Crash => Covered(l.store.mem, l.store.disk, l) && (l.hand.Taken? ==> Elsewhere(l))
    case NewWizard => Covered(l.store.mem, l.store.disk, l)
    case Load(list) => Covered(l.store.mem, l.store.disk + list, l)
    case Forget(done) => !done || Covered(l.store.disk, l.store.mem, l)
  }

  /** The step in hand is also in the file or was run before. */
  predicate Elsewhere(l: Ledger)
    requires l.hand.Taken?
  {
    l.hand.id in l.store.disk || l.hand.id in l.ran
  }

  /** Whatever happened before, stale loads included: an event loses a step that was somewhere
      exactly when `KeepsAll` is false. */
  lemma StepLosesIff(l: Ledger, e: Event)
    requires Inv(l) && Enabled(l, e)
    ensures (forall x: Id :: Somewhere(l, x) ==> Somewhere(Apply(l, e), x)) <==> KeepsAll(l, e)
  {
    var l' := Apply(l, e);
    match e
    case PushEvent(o) =>
      if !o.FailedBefore? {
        assert !Somewhere(l, l.next);
        CoveredIff(l, l', l.store.disk, l.store.mem + [l.next]);
      }
    case PopEvent(o) => PopLosesIff(l, o);
    case RunEvent =>
    case Crash =>
      CoveredIff(l, l', l.store.mem, l.store.disk);
      assert l.hand.Taken? ==> Somewhere(l, l.hand.id);
      assert forall x: Id :: x in l.store.mem ==> Somewhere(l, x);
    case NewWizard => CoveredIff(l, l', l.store.mem, l.store.disk);
    case Load(list) => CoveredIff(l, l', l.store.mem, l.store.disk + list);
    case Forget(done) => if done { CoveredIff(l, l', l.store.disk, l.store.mem); }
  }

  /** The steps of `a` are still somewhere exactly when covered by all that is left. */
  lemma CoveredIff(l: Ledger, l': Ledger, a: seq<Id>, b: seq<Id>)
    requires Inv(l) && l'.ran == l.ran && l.refused <= l'.refused && l'.hand.Nothing?
    requires forall x: Id :: x in l'.store.mem || x in l'.store.disk <==> x in b
    requires forall x: Id :: x in a ==> x !in l'.refused
    ensures (forall x: Id :: x in a ==> Somewhere(l', x)) <==> Covered(a, b, l)
  {
    if Covered(a, b, l) {
      forall x: Id | x in a ensures Somewhere(l', x) {
        var i :| 0 <= i < |a| && a[i] == x;
      }
    } else {
      var i :| 0 <= i < |a| && !(a[i] in b || a[i] in l.ran);
      assert a[i] in a && !Somewhere(l', a[i]);
    }
  }

  lemma PopLosesIff(l: Ledger, o: Outcome)
    requires Inv(l) && Enabled(l, PopEvent(o))
    ensures (forall x: Id :: Somewhere(l, x) ==> Somewhere(Apply(l, PopEvent(o)), x)) <==> KeepsAll(l, PopEvent(o))
  {
    var mem := l.store.mem;
    LastOf(mem);
    assert Somewhere(l, mem[|mem| - 1]);
    assert forall i :: 0 <= i < |l.store.disk| ==> Somewhere(l, l.store.disk[i]);
  }

  ghost predicate NeverLost(l: Ledger, es: seq<Event>)
    decreases |es|
  {
    NothingLost(l) && (es != [] && Enabled(l, es[0]) ==> NeverLost(Apply(l, es[0]), es[1..]))
  }

  ghost predicate Careful(l: Ledger, es: seq<Event>)
    decreases |es|
  {
    es != [] && Enabled(l, es[0]) ==> KeepsAll(l, es[0]) && Careful(Apply(l, es[0]), es[1..])
  }

  /** Over every run, no step is ever lost exactly when each event passes its check beforehand. */
  lemma {:induction false} NothingLostIff(l: Ledger, es: seq<Event>, l': Ledger)
    requires RunFrom(l, es, l') && Inv(l) && NothingLost(l)
    ensures NeverLost(l, es) <==> Careful(l, es)
    decreases |es|
  {
    if es != [] {
      var l1 := Apply(l, es[0]);
      StepKeeps(l, es[0]);
      StepLosesIff(l, es[0]);
      LossAtOnce(l, es[0]);
      if NothingLost(l1) { NothingLostIff(l1, es[1..], l'); }
    }
  }

  lemma LossAtOnce(l: Ledger, e: Event)
    requires Inv(l) && Enabled(l, e) && NothingLost(l)
    ensures NothingLost(Apply(l, e)) <==> forall x: Id :: Somewhere(l, x) ==> Somewhere(Apply(l, e), x)
  {
    var l' := Apply(l, e);
    if forall x: Id :: Somewhere(l, x) ==> Somewhere(l', x) {
      forall x: Id ensures !IsLost(l', x) {
        if x < l.next { assert !IsLost(l, x); }
      }
    }
    if NothingLost(l') {
      forall x: Id | Somewhere(l, x) ensures Somewhere(l', x) { assert !IsLost(l', x); }
    }
  }

  // ----------------------------------------------------------- memory and file

  /** Memory stays a prefix of the file through every event, except a load of something else and a
      removal of the file under a stack that still has steps. */
  lemma PrefixKeptIff(l: Ledger, e: Event)
    requires Enabled(l, e) && l.store.mem <= l.store.disk
    ensures Apply(l, e).store.mem <= Apply(l, e).store.disk
            <==> (e.Load? ==> e.list <= l.store.disk) && (e.Forget? && e.done ==> l.store.mem == [])
  {
  }

  /** Memory and file part exactly at these events. */
  lemma SyncLostIff(l: Ledger, e: Event)
    requires Enabled(l, e) && l.store.mem == l.store.disk
    ensures Apply(l, e).store.mem != Apply(l, e).store.disk <==>
              || (e.PushEvent? && e.o.FailedAfter?)
              || (e.PopEvent? && e.o.FailedBefore?)
              || (l.store.disk != [] && (e.Crash? || e.NewWizard? || (e.Forget? && e.done)))
              || (e.Load? && e.list != l.store.disk)
  {
    if e.PushEvent? { assert |l.store.mem + [l.next]| > |l.store.mem|; }
  }

  // -------------------------------------------------------------- at most once

  /** A list none of whose steps was run, each in it once. */
  predicate FreshList(l: Ledger, list: seq<Id>) {
    NoRepeats(list) && forall i :: 0 <= i < |list| ==> list[i] !in l.ran
  }

  /** What at-most-once rests on: nothing that was run is pending anywhere. */
  ghost predicate Once(l: Ledger) {
    && Inv(l)
    && NoRepeats(l.ran)
    && FreshList(l, l.store.mem) && FreshList(l, l.store.disk)
    && (l.hand.Taken? ==> l.hand.id !in l.store.mem && l.hand.id !in l.store.disk && l.hand.id !in l.ran)
  }

  ghost predicate FreshLoads(l: Ledger, es: seq<Event>)
    decreases |es|
  {
    es != [] && Enabled(l, es[0]) ==>
      (es[0].Load? ==> FreshList(l, es[0].list)) && FreshLoads(Apply(l, es[0]), es[1..])
  }

  lemma OnceStep(l: Ledger, e: Event)
    requires Once(l) && Enabled(l, e) && (e.Load? ==> FreshList(l, e.list))
    ensures Once(Apply(l, e))
  {
    StepKeeps(l, e);
    match e
    case PushEvent(o) =>
      assert !Somewhere(l, l.next);
      FreshPush(l, l.store.mem, l.next);
    case PopEvent(o) => FreshPop(l, l.store.mem);
    case _ =>
  }

  lemma FreshPush(l: Ledger, s: seq<Id>, x: Id)
    requires FreshList(l, s) && x !in s && x !in l.ran
    ensures FreshList(l, s + [x])
  {
    assert forall i :: 0 <= i < |s| ==> s[i] in s;
  }

  lemma FreshPop(l: Ledger, s: seq<Id>)
    requires FreshList(l, s) && s != []
    ensures FreshList(l, s[..|s| - 1]) && s[|s| - 1] !in s[..|s| - 1] && s[|s| - 1] !in l.ran
  {
  }

  lemma {:induction false} OnceRun(l: Ledger, es: seq<Event>, l': Ledger)
    requires RunFrom(l, es, l') && FreshLoads(l, es) && Once(l)
    ensures Once(l')
    decreases |es|
  {
    if es != [] {
      OnceStep(l, es[0]);
      OnceRun(Apply(l, es[0]), es[1..], l');
    }
  }

  /** Across any number of crashes, new wizards and resumes, whatever the persists do: if every list
      loaded is fresh when it is loaded, each step is run at most once, and what is in the file is
      always fresh to load. */
  lemma AtMostOnce(es: seq<Event>, l: Ledger)
    requires RunFrom(INIT, es, l) && FreshLoads(INIT, es)
    ensures forall i, j :: 0 <= i < j < |l.ran| ==> l.ran[i] != l.ran[j]
    ensures FreshList(l, l.store.disk)
  {
    OnceRun(INIT, es, l);
  }

  /** Rolling the whole stack back, undisturbed. */
  ghost function Drained(l: Ledger): Ledger
    requires l.up && l.hand.Nothing?
    decreases |l.store.mem|
  {
    if l.store.mem == [] then l else Drained(Apply(Apply(l, PopEvent(Durable)), RunEvent))
  }

  function DrainEvents(n: nat): seq<Event> {
    if n == 0 then [] else [PopEvent(Durable), RunEvent] + DrainEvents(n - 1)
  }

  lemma {:induction false} DrainRuns(l: Ledger)
    requires l.up && l.hand.Nothing?
    ensures RunFrom(l, DrainEvents(|l.store.mem|), Drained(l)) && FreshLoads(l, DrainEvents(|l.store.mem|))
    decreases |l.store.mem|
  {
    if l.store.mem != [] {
      var l1 := Apply(l, PopEvent(Durable));
      DrainRuns(Apply(l1, RunEvent));
      var es := DrainEvents(|l.store.mem|);
      assert es[1..] == [RunEvent] + DrainEvents(|l.store.mem| - 1);
      assert es[1..][1..] == DrainEvents(|l.store.mem| - 1);
      assert RunFrom(l1, es[1..], Drained(l)) && FreshLoads(l1, es[1..]);
    }
  }

  lemma {:induction false} DrainRepeats(l: Ledger)
    requires l.up && l.hand.Nothing? && !(NoRepeats(l.ran) && FreshList(l, l.store.mem))
    ensures !NoRepeats(Drained(l).ran)
    decreases |l.store.mem|
  {
    var mem := l.store.mem;
    if mem != [] {
      var n := |mem| - 1;
      var l1 := Apply(Apply(l, PopEvent(Durable)), RunEvent);
      assert l1.ran == l.ran + [mem[n]] && l1.store.mem == mem[..n];
      OneFewer(l.ran, mem);
      DrainRepeats(l1);
    }
  }

  lemma OneFewer(ran: seq<Id>, mem: seq<Id>)
    requires mem != []
    ensures var n := |mem| - 1;
            (&& NoRepeats(ran + [mem[n]]) && NoRepeats(mem[..n])
             && (forall i :: 0 <= i < n ==> mem[..n][i] !in ran + [mem[n]]))
            ==> NoRepeats(ran) && NoRepeats(mem) && forall i :: 0 <= i < |mem| ==> mem[i] !in ran
  {
    var n := |mem| - 1;
    var more := ran + [mem[n]];
    assert forall i :: 0 <= i < |ran| ==> more[i] == ran[i];
    assert more[|ran|] == mem[n];
    assert mem[n] in more && forall x :: x in ran ==> x in more;
    assert forall i :: 0 <= i < n ==> mem[..n][i] == mem[i];
    if NoRepeats(more) {
      forall i | 0 <= i < |ran| ensures ran[i] != mem[n] { assert more[i] != more[|ran|]; }
    }
  }

  /** No continuation whose own loads are fresh runs a step twice. */
  ghost predicate RunsOnce(m: Ledger) {
    forall es, l' :: RunFrom(m, es, l') && FreshLoads(m, es) ==> NoRepeats(l'.ran)
  }

  /** The exact condition for a load: no continuation whose own loads are fresh runs a step twice if
      and only if the list holds no step twice and none that was run already. */
  lemma LoadIsSafeIff(l: Ledger, list: seq<Id>)
    requires Once(l) && Enabled(l, Load(list))
    ensures RunsOnce(Apply(l, Load(list))) <==> FreshList(l, list)
  {
    var m := Apply(l, Load(list));
    if FreshList(l, list) {
      OnceStep(l, Load(list));
      forall es, l' | RunFrom(m, es, l') && FreshLoads(m, es) ensures NoRepeats(l'.ran) { OnceRun(m, es, l'); }
    } else {
      DrainRuns(m);
      DrainRepeats(m);
      var es := DrainEvents(|list|);
      assert RunFrom(m, es, Drained(m)) && FreshLoads(m, es);
    }
  }

  // --------------------------------------------------- a discipline that suffices

  /** No persist reports failure, no crash falls between a pop and its run, a stack is opened over a
      pending file only by loading all of it, and the file is not removed while it lists steps. */
  ghost predicate Prompt(l: Ledger, es: seq<Event>)
    decreases |es|
  {
    es != [] && Enabled(l, es[0]) ==>
      && ((es[0].PushEvent? || es[0].PopEvent?) ==> es[0].o.Durable?)
      && (es[0].Crash? ==> l.hand.Nothing?)
      && (es[0].NewWizard? ==> l.store.disk == [])
      && (es[0].Load? ==> es[0].list == l.store.disk)
      && (es[0].Forget? && es[0].done ==> l.store.disk == [])
      && Prompt(Apply(l, es[0]), es[1..])
  }

  /** Then every step ever pushed is pending in the file, in hand, or was run, and once only. */
  lemma {:induction false} PromptRunsLoseNothing(l: Ledger, es: seq<Event>, l': Ledger)
    requires RunFrom(l, es, l') && Prompt(l, es)
    requires Once(l) && NothingLost(l) && l.refused == {} && (l.up ==> l.store.mem == l.store.disk)
    ensures Once(l') && NothingLost(l') && l'.refused == {}
    ensures forall x: Id :: x < l'.next ==> x in l'.store.disk || l'.hand == Taken(x) || x in l'.ran
    decreases |es|
  {
    if es == [] {
      forall x: Id | x < l.next ensures x in l.store.disk || l.hand == Taken(x) || x in l.ran {
        assert !IsLost(l, x);
      }
    } else {
      OnceStep(l, es[0]);
      StepLosesIff(l, es[0]);
      LossAtOnce(l, es[0]);
      PromptRunsLoseNothing(Apply(l, es[0]), es[1..], l');
    }
  }

  // ----------------------------------------------------------- failing runs

  /** A durably pushed step is lost with no crash and no failed persist: a second wizard opens an
      empty stack over the file and its first push overwrites it.  Loading the file instead keeps it. */
  lemma NewWizardLosesAStep()
    ensures exists l :: RunFrom(INIT, [PushEvent(Durable), NewWizard, PushEvent(Durable)], l) && IsLost(l, 0)
    ensures exists l :: && RunFrom(INIT, [PushEvent(Durable), Load([0]), PushEvent(Durable)], l)
                        && l.store == Store([0, 1], [0, 1])
  {
    var a := Apply(INIT, PushEvent(Durable));
    assert a.store == Store([0], [0]);
    RunMore(INIT, [], INIT, PushEvent(Durable));
    assert [] + [PushEvent(Durable)] == [PushEvent(Durable)];
    var b := Apply(a, NewWizard);
    RunMore(INIT, [PushEvent(Durable)], a, NewWizard);
    var c := Apply(b, PushEvent(Durable));
    RunMore(INIT, [PushEvent(Durable), NewWizard], b, PushEvent(Durable));
    assert c.store == Store([1], [1]);
    assert IsLost(c, 0);
    var b' := Apply(a, Load([0]));
    RunMore(INIT, [PushEvent(Durable)], a, Load([0]));
    var c' := Apply(b', PushEvent(Durable));
    RunMore(INIT, [PushEvent(Durable), Load([0])], b', PushEvent(Durable));
    assert c'.store == Store([0, 1], [0, 1]);
  }

  /** Loading again the list read at launch, after a rollback from it, runs a step a second time. */
  lemma SecondResumeRunsAgain()
    ensures exists l :: RunFrom(INIT, [PushEvent(Durable), Crash, Load([0]), PopEvent(Durable), RunEvent,
                                       Load([0]), PopEvent(Durable), RunEvent], l) && l.ran == [0, 0]
  {
    var a, again := Apply(INIT, PushEvent(Durable)), [Load([0]), PopEvent(Durable), RunEvent];
    assert a.store == Store([0], [0]);
    RunMore(INIT, [], INIT, PushEvent(Durable));
    assert [] + [PushEvent(Durable)] == [PushEvent(Durable)];
    var b := Apply(a, Crash);
    RunMore(INIT, [PushEvent(Durable)], a, Crash);
    var c := LoadAndRun(b, 0);
    RunAppend(INIT, [PushEvent(Durable), Crash], b, again, c);
    var d := LoadAndRun(c, 0);
    RunAppend(INIT, [PushEvent(Durable), Crash] + again, c, again, d);
    assert [PushEvent(Durable), Crash] + again + again
        == [PushEvent(Durable), Crash, Load([0]), PopEvent(Durable), RunEvent, Load([0]), PopEvent(Durable), RunEvent];
  }

  lemma LoadAndRun(l: Ledger, x: Id) returns (l': Ledger)
    requires Enabled(l, Load([x]))
    ensures RunFrom(l, [Load([x]), PopEvent(Durable), RunEvent], l')
    ensures l'.ran == l.ran + [x] && l'.hand.Nothing? && l'.next == l.next && l'.refused == l.refused
  {
    var a := Apply(l, Load([x]));
    var b := Apply(a, PopEvent(Durable));
    l' := Apply(b, RunEvent);
    assert b.hand == Taken(x);
    var es := [Load([x]), PopEvent(Durable), RunEvent];
    assert es[1..] == [PopEvent(Durable), RunEvent];
    assert es[1..][1..] == [RunEvent];
    assert es[1..][1..][1..] == [];
    assert RunFrom(l', [], l');
    assert RunFrom(b, [RunEvent], l');
    assert RunFrom(a, es[1..], l');
  }

  /** A pop whose persist fails before the rename keeps its step in the file, so reloading the file
      would bring it back; but the next durable push overwrites it. */
  lemma FailedPopThenPushLosesAStep()
    ensures exists l :: && RunFrom(INIT, [PushEvent(Durable), PopEvent(FailedBefore), PushEvent(Durable)], l)
                        && IsLost(l, 0)
    ensures exists l :: && RunFrom(INIT, [PushEvent(Durable), PopEvent(FailedBefore), Load([0])], l)
                        && l.store == Store([0], [0])
  {
    var a := Apply(INIT, PushEvent(Durable));
    assert a.store == Store([0], [0]);
    RunMore(INIT, [], INIT, PushEvent(Durable));
    assert [] + [PushEvent(Durable)] == [PushEvent(Durable)];
    var b := Apply(a, PopEvent(FailedBefore));
    assert b.store == Store([], [0]);
    RunMore(INIT, [PushEvent(Durable)], a, PopEvent(FailedBefore));
    RunMore(INIT, [PushEvent(Durable), PopEvent(FailedBefore)], b, PushEvent(Durable));
    RunMore(INIT, [PushEvent(Durable), PopEvent(FailedBefore)], b, Load([0]));
    assert Apply(b, PushEvent(Durable)).store == Store([1], [1]);
    assert IsLost(Apply(b, PushEvent(Durable)), 0);
  }
}
