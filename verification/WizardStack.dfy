/** The rollback stack of wizard/rollback.go and the snapshot file behind it
    (wizard/pending_cleanups.go), driven by one wizard thread. */
module WizardStack {
  import opened Wrappers
  import opened WizardSteps

  /** The in-memory steps, oldest first, and the steps in the snapshot file; an
      absent file is the empty list. */
  datatype Store<T> = Store(mem: seq<T>, disk: seq<T>)

  function Written<T>(disk: seq<T>, snapshot: seq<T>, o: Outcome): seq<T> {
    if o.FailedBefore? then disk else snapshot
  }

  /** Push of an accepted step: undone in memory when persist reports failure. */
  function Push<T>(s: Store<T>, x: T, o: Outcome): Store<T> {
    Store(if o.Durable? then s.mem + [x] else s.mem, Written(s.disk, s.mem + [x], o))
  }

  /** Pop of a non-empty stack: not undone in memory when persist reports failure. */
  function Pop<T>(s: Store<T>, o: Outcome): Store<T>
    requires s.mem != []
  {
    var rest := s.mem[..|s.mem| - 1];
    Store(rest, Written(s.disk, rest, o))
  }

  /** What Rollback meets at one turn of its loop. */
  datatype Tick = Tick(cancelled: bool, persist: Outcome)

  datatype Result = Result(step: CleanupStep, failed: bool)

  datatype Stop = Finished | Cancelled | PopFailed

  datatype Rolled<W> = Rolled(store: Store<CleanupStep>, world: W, results: seq<Result>, stop: Stop)

  /** A step runner as a function on the state of whatever it cleans up: the new state,
      and whether it reported an error. */
  type Runner<!W> = (CleanupStep, W) -> (W, bool)

  function RollbackFrom<W>(s: Store<CleanupStep>, w: W, run: Runner<W>, env: nat -> Tick, i: nat): Rolled<W>
    decreases |s.mem|
  {
    if env(i).cancelled then Rolled(s, w, [], Cancelled)
    else if s.mem == [] then Rolled(s, w, [], Finished)
    else
      var x, s' := s.mem[|s.mem| - 1], Pop(s, env(i).persist);
      if !env(i).persist.Durable? then Rolled(s', w, [], PopFailed)
      else
        var (w', failed) := run(x, w);
        var r := RollbackFrom(s', w', run, env, i + 1);
        r.(results := [Result(x, failed)] + r.results)
  }

  // ------------------------------------------------------------ the object

  datatype PushResult = Pushed | CtxDone | Rejected(e: StepError) | PersistFailed

  datatype PopResult = Empty | PopCtxDone | Popped(step: CleanupStep) | PoppedPersistFailed(step: CleanupStep)

  /** None of the steps holds a secret. */
  ghost predicate Clean(steps: seq<CleanupStep>, secret: SecretShape) {
    forall i :: 0 <= i < |steps| ==> NoSecrets(steps[i], secret)
  }

  const PENDING_SCHEMA := 1

  /** What is found at the snapshot path. */
  datatype PendingFile = Missing | Unreadable | Unparsable | Document(version: int, steps: seq<CleanupStep>)

  datatype Loaded = NoSnapshot | Snapshot(steps: seq<CleanupStep>) | Corrupted | SchemaMismatch

  /** The file behind a persisted list: an empty list removes it. */
  function FileOf(disk: seq<CleanupStep>): PendingFile {
    if disk == [] then Missing else Document(PENDING_SCHEMA, disk)
  }

  /** LoadPending: every way the file can be, and what resume is told.  A file a stack wrote reads
      back as exactly the list it persisted. */
  method LoadPending(f: PendingFile, secret: SecretShape) returns (l: Loaded)
    ensures l.NoSnapshot? <==> f.Missing?
    ensures l.SchemaMismatch? <==> f.Document? && f.version > 1
    ensures l.Snapshot? <==> f.Document? && f.version == 1 && AllAccepted(f.steps, secret)
    ensures l.Snapshot? ==> l.steps == f.steps && Clean(l.steps, secret)
    ensures forall disk :: f == FileOf(disk) && AllAccepted(disk, secret) ==>
              l == if disk == [] then NoSnapshot else Snapshot(disk)
  {
    match f
    case Missing => return NoSnapshot;
    case Unreadable => return Corrupted;
    case Unparsable => return Corrupted;
    case Document(version, steps) =>
      if version <= 0 { return Corrupted; }
      if version > PENDING_SCHEMA { return SchemaMismatch; }
      for i := 0 to |steps|
        invariant forall j :: 0 <= j < i ==> Accepted(steps[j], secret)
      {
        if ValidateStep(steps[i], secret).Some? { return Corrupted; }
      }
      AcceptedHoldNoSecrets(steps, secret);
      l := Snapshot(steps);
  }

  class Stack {
    const secret: SecretShape
    var steps: seq<CleanupStep>
    var disk: seq<CleanupStep>   // the snapshot file; [] when there is none

    function View(): Store<CleanupStep>
      reads this
    {
      Store(steps, disk)
    }

    /** No step in memory fails validateStep. */
    ghost predicate Valid()
      reads this
    {
      AllAccepted(steps, secret)
    }

    /** Memory is a prefix of the file, and no step in the file fails validateStep either. */
    ghost predicate Mirrored()
      reads this
    {
      steps <= disk && AllAccepted(disk, secret)
    }

    /** NewStack: empty memory over whatever the file holds; it does not look at it. */
    constructor (secretShape: SecretShape, file: seq<CleanupStep>)
      ensures Valid() && View() == Store([], file) && secret == secretShape
      ensures Mirrored() <==> AllAccepted(file, secretShape)
    {
      secret := secretShape;
      steps, disk := [], file;
    }

    /** NewFilePersisterWithProfile with SavePending and RemovePending.  Removing the
        file cannot fail halfway; allowing it to only adds behaviour. */
    method Persist(snapshot: seq<CleanupStep>, o: Outcome) returns (ok: bool)
      modifies this`disk
      ensures ok <==> o.Durable? && AllAccepted(snapshot, secret)
      ensures disk == Written(old(disk), snapshot, if AllAccepted(snapshot, secret) then o else FailedBefore)
      ensures disk != old(disk) ==> Clean(disk, secret)
    {
      var i := 0;
      while i < |snapshot|
        invariant 0 <= i <= |snapshot|
        invariant forall j :: 0 <= j < i ==> Accepted(snapshot[j], secret)
      {
        if ValidateStep(snapshot[i], secret).Some? { return false; }
        i := i + 1;
      }
      AcceptedHoldNoSecrets(snapshot, secret);
      if !o.FailedBefore? { disk := snapshot; }
      ok := o.Durable?;
    }

    method PushStep(cancelled: bool, step: CleanupStep, o: Outcome) returns (r: PushResult)
      requires Valid()
      modifies this
      ensures Valid() && (old(Mirrored()) ==> Mirrored())
      ensures cancelled ==> r == CtxDone
      ensures !cancelled && !Accepted(step, secret) ==> r == Rejected(ValidateStep(step, secret).value)
      ensures !cancelled && Accepted(step, secret) ==> r == if o.Durable? then Pushed else PersistFailed
      ensures View() == if r.Pushed? || r.PersistFailed? then Push(old(View()), step, o) else old(View())
      ensures disk != old(disk) ==> Clean(disk, secret)
    {
      if cancelled { return CtxDone; }
      var e := ValidateStep(step, secret);
      if e.Some? { return Rejected(e.value); }
      steps := steps + [step];
      var ok := Persist(steps, o);
      if ok { return Pushed; }
      if |steps| > 0 { steps := steps[..|steps| - 1]; }
      assert steps == old(steps);
      r := PersistFailed;
    }

    method PopStep(cancelled: bool, o: Outcome) returns (r: PopResult)
      requires Valid()
      modifies this
      ensures Valid() && (old(Mirrored()) ==> Mirrored())
      ensures cancelled ==> r == PopCtxDone
      ensures !cancelled && old(steps) == [] ==> r == Empty
      ensures !cancelled && old(steps) != [] ==>
                var last := old(steps)[|old(steps)| - 1];
                r == if o.Durable? then Popped(last) else PoppedPersistFailed(last)
      ensures View() == if r.Popped? || r.PoppedPersistFailed? then Pop(old(View()), o) else old(View())
    {
      if cancelled { return PopCtxDone; }
      if steps == [] { return Empty; }
      var last := steps[|steps| - 1];
      steps := steps[..|steps| - 1];
      assert old(Mirrored()) ==> steps <= old(disk);
      var ok := Persist(steps, o);
      r := if ok then Popped(last) else PoppedPersistFailed(last);
    }

    method LoadSnapshot(snapshot: seq<CleanupStep>) returns (ok: bool)
      requires Valid()
      modifies this`steps
      ensures ok <==> AllAccepted(snapshot, secret)
      ensures ok ==> Clean(steps, secret)
      ensures steps == if ok then snapshot else old(steps)
      ensures Valid()
      ensures old(Mirrored()) ==> (ok && Mirrored() <==> AllAccepted(snapshot, secret) && snapshot <= disk)
    {
      for i := 0 to |snapshot|
        invariant forall j :: 0 <= j < i ==> Accepted(snapshot[j], secret)
      {
        if ValidateStep(snapshot[i], secret).Some? { return false; }
      }
      AcceptedHoldNoSecrets(snapshot, secret);
      steps, ok := snapshot, true;
    }

    /** Rollback; `env(i)` decides what happens at turn i of the loop. */
    method Rollback<W>(run: Runner<W>, w0: W, env: nat -> Tick) returns (w: W, results: seq<Result>, stop: Stop)
      requires Valid()
      modifies this
      ensures Valid() && (old(Mirrored()) ==> Mirrored())
      ensures Rolled(View(), w, results, stop) == RollbackFrom(old(View()), w0, run, env, 0)
    {
      w, results := w0, [];
      var i := 0;
      while true
        invariant Valid() && (old(Mirrored()) ==> Mirrored())
        invariant var rest := RollbackFrom(View(), w, run, env, i);
                  RollbackFrom(old(View()), w0, run, env, 0) == rest.(results := results + rest.results)
        decreases |steps|
      {
        ghost var before, world := View(), w;
        var tick := env(i);
        if tick.cancelled { stop := Cancelled; return; }
        var p := PopStep(false, tick.persist);
        if p.PoppedPersistFailed? { stop := PopFailed; return; }
        if p.Empty? { break; }
        var (w', failed) := run(p.step, w);
        w := w';
        RollbackTurn(before, world, run, env, i, results);
        results := results + [Result(p.step, failed)];
        i := i + 1;
      }
      stop := Finished;
    }
  }

  /** No secret is ever in the memory of a valid stack, nor in a file it mirrors. */
  lemma StackHoldsNoSecrets(s: Stack)
    requires s.Valid()
    ensures Clean(s.steps, s.secret) && (s.Mirrored() ==> Clean(s.disk, s.secret))
  {
    AcceptedHoldNoSecrets(s.steps, s.secret);
    if s.Mirrored() { AcceptedHoldNoSecrets(s.disk, s.secret); }
  }

  /** One turn of the loop, with the results gathered so far. */
  lemma RollbackTurn<W>(s: Store<CleanupStep>, w: W, run: Runner<W>, env: nat -> Tick, i: nat, done: seq<Result>)
    requires s.mem != [] && !env(i).cancelled && env(i).persist.Durable?
    ensures var x := s.mem[|s.mem| - 1];
            var now := RollbackFrom(s, w, run, env, i);
            var next := RollbackFrom(Pop(s, Durable), run(x, w).0, run, env, i + 1);
            now.(results := done + now.results) == next.(results := done + [Result(x, run(x, w).1)] + next.results)
  {
  }

  // ----------------------------------------------------- what rollback achieves

  /** Running the steps newest first. */
  function Unwind<W>(steps: seq<CleanupStep>, w: W, run: Runner<W>): W
    decreases |steps|
  {
    if steps == [] then w
    else Unwind(steps[..|steps| - 1], run(steps[|steps| - 1], w).0, run)
  }

  ghost predicate Undisturbed(env: nat -> Tick) { forall i :: env(i) == Tick(false, Durable) }

  /** An undisturbed rollback runs every step exactly once, newest first, whatever the
      individual errors, and leaves neither memory nor file behind. */
  lemma {:induction false} RollbackRunsAll<W>(s: Store<CleanupStep>, w: W, run: Runner<W>, env: nat -> Tick, i: nat)
    requires Undisturbed(env)
    ensures var r := RollbackFrom(s, w, run, env, i);
            && r.stop == Finished
            && r.store == Store([], if s.mem == [] then s.disk else [])
            && r.world == Unwind(s.mem, w, run)
            && |r.results| == |s.mem|
            && forall j :: 0 <= j < |s.mem| ==> r.results[j].step == s.mem[|s.mem| - 1 - j]
    decreases |s.mem|
  {
    if s.mem != [] {
      var x := s.mem[|s.mem| - 1];
      RollbackRunsAll(Pop(s, Durable), run(x, w).0, run, env, i + 1);
    }
  }

  lemma SuffixOfPush<T>(mem: seq<T>, n: nat)
    requires n < |mem|
    ensures var m := |mem| - 1; mem[n..][..m - n] == mem[..m][n..] && mem[n..] != [] && mem[n..][m - n] == mem[m]
  {
  }

  /** However it is disturbed, rollback runs a newest-first stretch of the stack ... */
  lemma {:induction false} RollbackRunsASuffix<W>(s: Store<CleanupStep>, w: W, run: Runner<W>, env: nat -> Tick, i: nat)
    ensures var r := RollbackFrom(s, w, run, env, i);
            && |r.results| <= |s.mem|
            && r.world == Unwind(s.mem[|s.mem| - |r.results|..], w, run)
            && (forall j :: 0 <= j < |r.results| ==> r.results[j].step == s.mem[|s.mem| - 1 - j])
  {
    RollbackOrder(s, w, run, env, i);
    RollbackWorld(s, w, run, env, i);
  }

  lemma {:induction false} RollbackOrder<W>(s: Store<CleanupStep>, w: W, run: Runner<W>, env: nat -> Tick, i: nat)
    ensures var r := RollbackFrom(s, w, run, env, i);
            |r.results| <= |s.mem| && forall j :: 0 <= j < |r.results| ==> r.results[j].step == s.mem[|s.mem| - 1 - j]
    decreases |s.mem|
  {
    if !env(i).cancelled && s.mem != [] && env(i).persist.Durable? {
      RollbackOrder(Pop(s, Durable), run(s.mem[|s.mem| - 1], w).0, run, env, i + 1);
    }
  }

  lemma {:induction false} RollbackWorld<W>(s: Store<CleanupStep>, w: W, run: Runner<W>, env: nat -> Tick, i: nat)
    ensures var r := RollbackFrom(s, w, run, env, i);
            |r.results| <= |s.mem| && r.world == Unwind(s.mem[|s.mem| - |r.results|..], w, run)
    decreases |s.mem|
  {
    if !env(i).cancelled && s.mem != [] && env(i).persist.Durable? {
      var x, s', m := s.mem[|s.mem| - 1], Pop(s, Durable), |s.mem| - 1;
      var w' := run(x, w).0;
      RollbackWorld(s', w', run, env, i + 1);
      var n := m - |RollbackFrom(s', w', run, env, i + 1).results|;
      SuffixOfPush(s.mem, n);
    } else {
      assert s.mem[|s.mem|..] == [];
    }
  }

  /** ... and keeps the steps below it, in memory and in the file, except that a pop
      whose persist failed takes one more step out of memory without running it. */
  lemma {:induction false} RollbackKeepsThePrefix<W>(s: Store<CleanupStep>, w: W, run: Runner<W>, env: nat -> Tick,
                                                     i: nat)
    requires s.mem <= s.disk
    ensures var r := RollbackFrom(s, w, run, env, i);
            && |r.store.mem| + |r.results| + (if r.stop.PopFailed? then 1 else 0) == |s.mem|
            && r.store.mem <= s.mem
            && r.store.mem <= r.store.disk
            && (r.stop == Finished ==> r.store.mem == [])
    decreases |s.mem|
  {
    if !env(i).cancelled && s.mem != [] && env(i).persist.Durable? {
      RollbackKeepsThePrefix(Pop(s, Durable), run(s.mem[|s.mem| - 1], w).0, run, env, i + 1);
    }
  }
}
