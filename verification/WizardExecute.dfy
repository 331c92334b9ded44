/** Provisioning with compensation: Execute of wizard/execute.go over any hosting
    provider, and what a rollback afterwards restores. */
module WizardExecute {
  import opened Wrappers
  import opened WizardSteps
  import opened WizardStack
  import opened WizardPlan

  /** A hosting provider acting on panel states W.  F is what the environment may make
      go wrong in one Create call.  Removals are taken as succeeding. */
  datatype Provider<!W, !F> = Provider(
    createSubdomain: (W, F, string, string) -> (W, bool),
    setupSSL: (W, F, string) -> (W, bool),
    createDatabase: (W, F, string, string) -> (W, bool),
    removeSubdomain: (W, string) -> W,
    removeSSL: (W, string) -> W,
    removeDatabase: (W, string, string) -> W)

  /** MakeStepRunner: provider kinds only, everything else is an error without effect. */
  function StepRunner<W, F>(p: Provider<W, F>): Runner<W> {
    (step: CleanupStep, w: W) =>
      match step.kind
      case Subdomain => (p.removeSubdomain(w, Param(step, "domain")), false)
      case SSL => (p.removeSSL(w, Param(step, "domain")), false)
      case Database => (p.removeDatabase(w, Param(step, "dbKind"), Param(step, "dbName")), false)
      case _ => (w, true)
  }

  /** What the environment does during one Execute. */
  datatype Env<F> = Env(sub: F, ssl: F, db: F, subPush: PushEnv, sslPush: PushEnv, dbPush: PushEnv)

  datatype PushEnv = PushEnv(cancelled: bool, persist: Outcome, now: int)

  datatype Status = NotRun | Ok | Failed

  datatype Report = Report(subdomain: Status, ssl: Status, database: Status, credentials: bool)

  const BLANK := Report(NotRun, NotRun, NotRun, false)

  /** Where Execute stopped. */
  datatype Exit =
    | InvalidPlan
    | Done
    | SubdomainFailed | SubdomainCleanupFailed
    | SSLFailed | SSLCleanupFailed
    | DatabaseFailed | DatabaseCleanupFailed

  datatype Executed<W> = Executed(world: W, store: Store<CleanupStep>, report: Report, exit: Exit)

  function SubdomainStep(plan: Plan, now: int): CleanupStep {
    CleanupStep("Remove subdomain " + plan.domain, Subdomain, map["domain" := plan.domain], now)
  }

  function SSLStep(plan: Plan, now: int): CleanupStep {
    CleanupStep("Remove SSL " + plan.domain, SSL, map["domain" := plan.domain], now)
  }

  function DatabaseStep(plan: Plan, now: int): CleanupStep {
    CleanupStep("Remove database " + plan.dbName + " (" + plan.dbKind + ")", Database,
                map["dbKind" := plan.dbKind, "dbName" := plan.dbName], now)
  }

  /** Stack.Push as Execute sees it: the new store, and whether it reported success. */
  function TryPush(s: Store<CleanupStep>, step: CleanupStep, e: PushEnv, secret: SecretShape)
    : (Store<CleanupStep>, bool)
  {
    if e.cancelled || !Accepted(step, secret) then (s, false)
    else (Push(s, step, e.persist), e.persist.Durable?)
  }

  /** Push of an acceptable step with nothing in the way. */
  predicate Pushes(step: CleanupStep, e: PushEnv, secret: SecretShape) {
    !e.cancelled && Accepted(step, secret) && e.persist.Durable?
  }

  predicate WantsDatabase(plan: Plan) { plan.dbKind != "" && plan.dbName != "" }

  function Execute<W, F>(
    p: Provider<W, F>, w0: W, s0: Store<CleanupStep>, plan: Plan, v: Validators, secret: SecretShape, env: Env<F>)
    : Executed<W>
  {
    if !ValidatePlan(plan, v) then Executed(w0, s0, BLANK, InvalidPlan)
    else
      var (w1, ok1) := p.createSubdomain(w0, env.sub, plan.domain, plan.nodeVersion);
      if !ok1 then Executed(w1, s0, BLANK.(subdomain := Failed), SubdomainFailed)
      else
        var r1 := BLANK.(subdomain := Ok);
        var (s1, pushed1) := TryPush(s0, SubdomainStep(plan, env.subPush.now), env.subPush, secret);
        if !pushed1 then Executed(w1, s1, r1, SubdomainCleanupFailed)
        else
          var (w2, ok2) := p.setupSSL(w1, env.ssl, plan.domain);
          if !ok2 then Executed(w2, s1, r1.(ssl := Failed), SSLFailed)
          else
            var r2 := r1.(ssl := Ok);
            var (s2, pushed2) := TryPush(s1, SSLStep(plan, env.sslPush.now), env.sslPush, secret);
            if !pushed2 then Executed(w2, s2, r2, SSLCleanupFailed)
            else if !WantsDatabase(plan) then Executed(w2, s2, r2, Done)
            else
              var (w3, ok3) := p.createDatabase(w2, env.db, plan.dbKind, plan.dbName);
              if !ok3 then Executed(w3, s2, r2.(database := Failed), DatabaseFailed)
              else
                var (s3, pushed3) := TryPush(s2, DatabaseStep(plan, env.dbPush.now), env.dbPush, secret);
                Executed(w3, s3, r2.(database := Ok, credentials := true),
                         if pushed3 then Done else DatabaseCleanupFailed)
  }

  /** Execute as it runs, against a live stack. */
  method RunExecute<W, F>(p: Provider<W, F>, w0: W, stack: Stack, plan: Plan, v: Validators, env: Env<F>)
    returns (w: W, report: Report, exit: Exit)
    requires stack.Valid()
    modifies stack
    ensures stack.Valid()
    ensures Executed(w, stack.View(), report, exit) == Execute(p, w0, old(stack.View()), plan, v, stack.secret, env)
  {
    w, report := w0, BLANK;
    if !ValidatePlan(plan, v) { exit := InvalidPlan; return; }

    var (w1, ok1) := p.createSubdomain(w, env.sub, plan.domain, plan.nodeVersion);
    w := w1;
    if !ok1 { report := report.(subdomain := Failed); exit := SubdomainFailed; return; }
    report := report.(subdomain := Ok);
    var r := stack.PushStep(env.subPush.cancelled, SubdomainStep(plan, env.subPush.now), env.subPush.persist);
    if !r.Pushed? { exit := SubdomainCleanupFailed; return; }

    var (w2, ok2) := p.setupSSL(w, env.ssl, plan.domain);
    w := w2;
    if !ok2 { report := report.(ssl := Failed); exit := SSLFailed; return; }
    report := report.(ssl := Ok);
    r := stack.PushStep(env.sslPush.cancelled, SSLStep(plan, env.sslPush.now), env.sslPush.persist);
    if !r.Pushed? { exit := SSLCleanupFailed; return; }

    if plan.dbKind == "" || plan.dbName == "" { exit := Done; return; }

    var (w3, ok3) := p.createDatabase(w, env.db, plan.dbKind, plan.dbName);
    w := w3;
    if !ok3 { report := report.(database := Failed); exit := DatabaseFailed; return; }
    report := report.(database := Ok);
    report := report.(credentials := true);
    r := stack.PushStep(env.dbPush.cancelled, DatabaseStep(plan, env.dbPush.now), env.dbPush.persist);
    if !r.Pushed? { exit := DatabaseCleanupFailed; return; }
    exit := Done;
  }

  // ------------------------------------------- an all-or-nothing provider

  /** Panel resources; a failing Create leaves them alone, a succeeding one adds exactly
      one resource that was absent. */
  datatype Panel = Panel(subdomains: set<string>, certs: set<string>, databases: set<(string, string)>)

  function SetPanel(): Provider<Panel, bool> {
    Provider(
      (w: Panel, fail: bool, d: string, v: string) =>
        if fail || d in w.subdomains then (w, false) else (w.(subdomains := w.subdomains + {d}), true),
      (w: Panel, fail: bool, d: string) =>
        if fail then (w, false) else (w.(certs := w.certs + {d}), true),
      (w: Panel, fail: bool, k: string, n: string) =>
        if fail || (k, n) in w.databases then (w, false) else (w.(databases := w.databases + {(k, n)}), true),
      (w: Panel, d: string) => w.(subdomains := w.subdomains - {d}),
      (w: Panel, d: string) => w.(certs := w.certs - {d}),
      (w: Panel, k: string, n: string) => w.(databases := w.databases - {(k, n)}))
  }

  /** The panel that keeps only the resource whose cleanup could not be pushed. */
  function Leftover(w0: Panel, plan: Plan, exit: Exit): Panel {
    match exit
    case SubdomainCleanupFailed => w0.(subdomains := w0.subdomains + {plan.domain})
    case SSLCleanupFailed => w0.(certs := w0.certs + {plan.domain})
    case DatabaseCleanupFailed => w0.(databases := w0.databases + {(plan.dbKind, plan.dbName)})
    case _ => w0
  }

  lemma UnwindPush<W>(steps: seq<CleanupStep>, x: CleanupStep, w: W, run: Runner<W>)
    ensures Unwind(steps + [x], w, run) == Unwind(steps, run(x, w).0, run)
  {
    assert (steps + [x])[..|steps|] == steps;
  }

  /** The steps Execute pushed, in order. */
  function PushedBy(plan: Plan, exit: Exit, env: PushTimes): seq<CleanupStep> {
    match exit
    case InvalidPlan => []
    case SubdomainFailed => []
    case SubdomainCleanupFailed => []
    case SSLFailed => [SubdomainStep(plan, env.sub)]
    case SSLCleanupFailed => [SubdomainStep(plan, env.sub)]
    case DatabaseFailed => [SubdomainStep(plan, env.sub), SSLStep(plan, env.ssl)]
    case DatabaseCleanupFailed => [SubdomainStep(plan, env.sub), SSLStep(plan, env.ssl)]
    case Done =>
      [SubdomainStep(plan, env.sub), SSLStep(plan, env.ssl)]
      + if WantsDatabase(plan) then [DatabaseStep(plan, env.db)] else []
  }

  datatype PushTimes = PushTimes(sub: int, ssl: int, db: int)

  function Times<F>(env: Env<F>): PushTimes { PushTimes(env.subPush.now, env.sslPush.now, env.dbPush.now) }

  /** Execute only ever grows the stack, by the cleanups of what it created. */
  lemma ExecutePushes<W, F>(
    p: Provider<W, F>, w0: W, s0: Store<CleanupStep>, plan: Plan, v: Validators, secret: SecretShape, env: Env<F>)
    ensures var e := Execute(p, w0, s0, plan, v, secret, env);
            e.store.mem == s0.mem + PushedBy(plan, e.exit, Times(env))
  {
    var e := Execute(p, w0, s0, plan, v, secret, env);
    var sub, ssl := SubdomainStep(plan, env.subPush.now), SSLStep(plan, env.sslPush.now);
    var db := DatabaseStep(plan, env.dbPush.now);
    assert s0.mem + [sub] + [ssl] == s0.mem + [sub, ssl];
    assert s0.mem + [sub] + [ssl] + [db] == s0.mem + ([sub, ssl] + [db]);
  }

  /** The panel right after Execute, in terms of where it stopped. */
  function AfterExecute(w0: Panel, plan: Plan, exit: Exit): Panel {
    var w1 := w0.(subdomains := w0.subdomains + {plan.domain});
    var w2 := w1.(certs := w1.certs + {plan.domain});
    var w3 := w2.(databases := w2.databases + {(plan.dbKind, plan.dbName)});
    match exit
    case InvalidPlan => w0
    case SubdomainFailed => w0
    case SubdomainCleanupFailed => w1
    case SSLFailed => w1
    case SSLCleanupFailed => w2
    case DatabaseFailed => w2
    case DatabaseCleanupFailed => w3
    case Done => if WantsDatabase(plan) then w3 else w2
  }

  ghost predicate Absent(w: Panel, plan: Plan) {
    plan.domain !in w.subdomains && plan.domain !in w.certs && (plan.dbKind, plan.dbName) !in w.databases
  }

  lemma UndoSubdomain(plan: Plan, now: int, w: Panel)
    ensures StepRunner(SetPanel())(SubdomainStep(plan, now), w).0 == w.(subdomains := w.subdomains - {plan.domain})
  {
    assert Param(SubdomainStep(plan, now), "domain") == plan.domain;
  }

  lemma UndoSSL(plan: Plan, now: int, w: Panel)
    ensures StepRunner(SetPanel())(SSLStep(plan, now), w).0 == w.(certs := w.certs - {plan.domain})
  {
    assert Param(SSLStep(plan, now), "domain") == plan.domain;
  }

  lemma UndoDatabase(plan: Plan, now: int, w: Panel)
    ensures StepRunner(SetPanel())(DatabaseStep(plan, now), w).0
            == w.(databases := w.databases - {(plan.dbKind, plan.dbName)})
  {
    assert "dbKind"[2] != "dbName"[2];
    assert Param(DatabaseStep(plan, now), "dbKind") == plan.dbKind;
    assert Param(DatabaseStep(plan, now), "dbName") == plan.dbName;
  }

  /** Execute stopped at any point and then rolled back gives the panel the earlier stack
      alone would give from the initial state: everything Execute created is gone, except
      that a failed Push leaves exactly the one resource it was to record. */
  lemma RollbackRestores(
    w0: Panel, s0: Store<CleanupStep>, plan: Plan, v: Validators, secret: SecretShape, env: Env<bool>)
    requires Absent(w0, plan)
    ensures var e := Execute(SetPanel(), w0, s0, plan, v, secret, env);
            Unwind(e.store.mem, e.world, StepRunner(SetPanel()))
            == Unwind(s0.mem, Leftover(w0, plan, e.exit), StepRunner(SetPanel()))
  {
    var p, run := SetPanel(), StepRunner(SetPanel());
    var e := Execute(p, w0, s0, plan, v, secret, env);
    ExecutePushes(p, w0, s0, plan, v, secret, env);
    assert e.world == AfterExecute(w0, plan, e.exit);
    UnwindPushed(w0, s0.mem, plan, e.exit, Times(env));
  }

  lemma UnwindPushed(w0: Panel, mem: seq<CleanupStep>, plan: Plan, exit: Exit, at: PushTimes)
    requires Absent(w0, plan)
    ensures Unwind(mem + PushedBy(plan, exit, at), AfterExecute(w0, plan, exit), StepRunner(SetPanel()))
            == Unwind(mem, Leftover(w0, plan, exit), StepRunner(SetPanel()))
  {
    var run, w := StepRunner(SetPanel()), AfterExecute(w0, plan, exit);
    var sub, ssl, db := SubdomainStep(plan, at.sub), SSLStep(plan, at.ssl), DatabaseStep(plan, at.db);
    match exit
    case InvalidPlan => assert mem + [] == mem;
    case SubdomainFailed => assert mem + [] == mem;
    case SubdomainCleanupFailed => assert mem + [] == mem;
    case SSLFailed => UnwindOne(w0, mem, w, plan, at);
    case SSLCleanupFailed => UnwindOne(w0, mem, w, plan, at);
    case DatabaseFailed => UnwindTwo(w0, mem, w, plan, at);
    case DatabaseCleanupFailed => UnwindTwo(w0, mem, w, plan, at);
    case Done =>
      if WantsDatabase(plan) {
        assert mem + ([sub, ssl] + [db]) == (mem + [sub, ssl]) + [db];
        UnwindPush(mem + [sub, ssl], db, w, run);
        UndoDatabase(plan, at.db, w);
        assert w.databases - {(plan.dbKind, plan.dbName)} == w0.databases;
        UnwindTwo(w0, mem, run(db, w).0, plan, at);
      } else {
        assert [sub, ssl] + [] == [sub, ssl];
        UnwindTwo(w0, mem, w, plan, at);
      }
  }

  lemma UnwindOne(w0: Panel, mem: seq<CleanupStep>, w: Panel, plan: Plan, at: PushTimes)
    requires Absent(w0, plan) && w.subdomains == w0.subdomains + {plan.domain}
    ensures Unwind(mem + [SubdomainStep(plan, at.sub)], w, StepRunner(SetPanel()))
            == Unwind(mem, w.(subdomains := w0.subdomains), StepRunner(SetPanel()))
  {
    UnwindPush(mem, SubdomainStep(plan, at.sub), w, StepRunner(SetPanel()));
    UndoSubdomain(plan, at.sub, w);
    assert w.subdomains - {plan.domain} == w0.subdomains;
  }

  lemma UnwindTwo(w0: Panel, mem: seq<CleanupStep>, w: Panel, plan: Plan, at: PushTimes)
    requires Absent(w0, plan) && w.subdomains == w0.subdomains + {plan.domain} && w.certs == w0.certs + {plan.domain}
    ensures Unwind(mem + [SubdomainStep(plan, at.sub), SSLStep(plan, at.ssl)], w, StepRunner(SetPanel()))
            == Unwind(mem, w.(subdomains := w0.subdomains, certs := w0.certs), StepRunner(SetPanel()))
  {
    var sub, ssl, run := SubdomainStep(plan, at.sub), SSLStep(plan, at.ssl), StepRunner(SetPanel());
    assert mem + [sub, ssl] == (mem + [sub]) + [ssl];
    UnwindPush(mem + [sub], ssl, w, run);
    UndoSSL(plan, at.ssl, w);
    assert w.certs - {plan.domain} == w0.certs;
    UnwindOne(w0, mem, w.(certs := w0.certs), plan, at);
  }

  /** The same through the rollback loop itself: from an empty stack, with nothing
      disturbing the rollback, every cleanup runs without error and the panel is back to
      its initial state up to a resource whose Push failed. */
  lemma ExecuteThenRollback(
    w0: Panel, disk: seq<CleanupStep>, plan: Plan, v: Validators, secret: SecretShape, env: Env<bool>,
    ticks: nat -> Tick)
    requires Absent(w0, plan) && Undisturbed(ticks)
    ensures var e := Execute(SetPanel(), w0, Store([], disk), plan, v, secret, env);
            var r := RollbackFrom(e.store, e.world, StepRunner(SetPanel()), ticks, 0);
            && r.stop == Finished
            && r.world == Leftover(w0, plan, e.exit)
            && |r.results| == |e.store.mem|
            && forall j :: 0 <= j < |r.results| ==> !r.results[j].failed
  {
    var e := Execute(SetPanel(), w0, Store([], disk), plan, v, secret, env);
    RollbackRestores(w0, Store([], disk), plan, v, secret, env);
    RollbackRunsAll(e.store, e.world, StepRunner(SetPanel()), ticks, 0);
    ExecutePushes(SetPanel(), w0, Store([], disk), plan, v, secret, env);
    PanelStepsNeverFail(e.store, e.world, SetPanel(), ticks, 0);
  }

  lemma {:induction false} PanelStepsNeverFail<W, F>(
    s: Store<CleanupStep>, w: W, p: Provider<W, F>, ticks: nat -> Tick, i: nat)
    requires forall j :: 0 <= j < |s.mem| ==> s.mem[j].kind in {Subdomain, SSL, Database}
    ensures forall j :: 0 <= j < |RollbackFrom(s, w, StepRunner(p), ticks, i).results| ==>
              !RollbackFrom(s, w, StepRunner(p), ticks, i).results[j].failed
    decreases |s.mem|
  {
    if !ticks(i).cancelled && s.mem != [] && ticks(i).persist.Durable? {
      var x := s.mem[|s.mem| - 1];
      PanelStepsNeverFail(Pop(s, Durable), StepRunner(p)(x, w).0, p, ticks, i + 1);
    }
  }

  /** The panel runner removes what the step names, and reports the kinds it does not know without
      touching anything. */
  lemma RunnerRemoves<W, F>(p: Provider<W, F>, step: CleanupStep, w: W)
    ensures var (w', failed) := StepRunner(p)(step, w);
            && (failed <==> step.kind !in {Subdomain, SSL, Database})
            && (failed ==> w' == w)
            && (step.kind == Subdomain ==> w' == p.removeSubdomain(w, Param(step, "domain")))
            && (step.kind == SSL ==> w' == p.removeSSL(w, Param(step, "domain")))
            && (step.kind == Database ==> w' == p.removeDatabase(w, Param(step, "dbKind"), Param(step, "dbName")))
  {
  }

  /** The cleanups Execute records are refused only for a missing or secret-shaped name of the
      resource itself, and carry the time they were made. */
  lemma OwnStepsAreAccepted(plan: Plan, now: int, secret: SecretShape)
    ensures Accepted(SubdomainStep(plan, now), secret) <==> plan.domain != "" && !secret(plan.domain)
    ensures Accepted(SSLStep(plan, now), secret) <==> plan.domain != "" && !secret(plan.domain)
    ensures Accepted(DatabaseStep(plan, now), secret) <==>
              plan.dbKind != "" && plan.dbName != "" && !secret(plan.dbKind) && !secret(plan.dbName)
    ensures SubdomainStep(plan, now).createdAt == SSLStep(plan, now).createdAt == now
    ensures DatabaseStep(plan, now).createdAt == now
  {
    var sub, ssl, db := SubdomainStep(plan, now), SSLStep(plan, now), DatabaseStep(plan, now);
    AcceptedIff(sub, secret);
    AcceptedIff(ssl, secret);
    AcceptedIff(db, secret);
    assert "dbKind"[2] != "dbName"[2];
    assert sub.params["domain"] == plan.domain && ssl.params["domain"] == plan.domain;
    assert db.params["dbKind"] == plan.dbKind && db.params["dbName"] == plan.dbName;
  }

  // ------------------------------------------------------- what Execute achieves

  /** What is reported, by where Execute stopped. */
  function ReportFor(plan: Plan, exit: Exit): Report {
    match exit
    case InvalidPlan => Report(NotRun, NotRun, NotRun, false)
    case SubdomainFailed => Report(Failed, NotRun, NotRun, false)
    case SubdomainCleanupFailed => Report(Ok, NotRun, NotRun, false)
    case SSLFailed => Report(Ok, Failed, NotRun, false)
    case SSLCleanupFailed => Report(Ok, Ok, NotRun, false)
    case DatabaseFailed => Report(Ok, Ok, Failed, false)
    case DatabaseCleanupFailed => Report(Ok, Ok, Ok, true)
    case Done => if plan.dbName == "" then Report(Ok, Ok, NotRun, false) else Report(Ok, Ok, Ok, true)
  }

  /** Whatever the provider, the report says which creations succeeded, which one failed and which
      were not reached, and carries credentials exactly when a database was created. */
  lemma ReportIs<W, F>(
    p: Provider<W, F>, w0: W, s0: Store<CleanupStep>, plan: Plan, v: Validators, secret: SecretShape, env: Env<F>)
    ensures var e := Execute(p, w0, s0, plan, v, secret, env); e.report == ReportFor(plan, e.exit)
  {
  }

  /** Where Execute stops on the set-valued panel, from its inputs alone. */
  function ExitOn(w0: Panel, plan: Plan, v: Validators, secret: SecretShape, env: Env<bool>): Exit {
    if !ValidatePlan(plan, v) then InvalidPlan
    else if env.sub || plan.domain in w0.subdomains then SubdomainFailed
    else if !Pushes(SubdomainStep(plan, env.subPush.now), env.subPush, secret) then SubdomainCleanupFailed
    else if env.ssl then SSLFailed
    else if !Pushes(SSLStep(plan, env.sslPush.now), env.sslPush, secret) then SSLCleanupFailed
    else if plan.dbName == "" then Done
    else if env.db || (plan.dbKind, plan.dbName) in w0.databases then DatabaseFailed
    else if !Pushes(DatabaseStep(plan, env.dbPush.now), env.dbPush, secret) then DatabaseCleanupFailed
    else Done
  }

  lemma ExitIs(w0: Panel, s0: Store<CleanupStep>, plan: Plan, v: Validators, secret: SecretShape, env: Env<bool>)
    ensures Execute(SetPanel(), w0, s0, plan, v, secret, env).exit == ExitOn(w0, plan, v, secret, env)
  {
  }

  /** When Execute is done, exactly what was planned is there, and its cleanups are stacked. */
  lemma DoneIsProvisioned(
    w0: Panel, s0: Store<CleanupStep>, plan: Plan, v: Validators, secret: SecretShape, env: Env<bool>)
    requires Execute(SetPanel(), w0, s0, plan, v, secret, env).exit.Done?
    ensures var e := Execute(SetPanel(), w0, s0, plan, v, secret, env);
            var db := if plan.dbName == "" then {} else {(plan.dbKind, plan.dbName)};
            && e.world == Panel(w0.subdomains + {plan.domain}, w0.certs + {plan.domain}, w0.databases + db)
            && |e.store.mem| == |s0.mem| + (if plan.dbName == "" then 2 else 3)
            && e.store.disk == e.store.mem
  {
    PlanIsValidIff(plan, v);
    assert w0.databases + {} == w0.databases;
  }

  // ------------------------------------------- any all-or-nothing provider

  /** Which resources a panel state has, for a panel that is otherwise opaque. */
  datatype Presence<!W> = Presence(sub: (W, string) -> bool, cert: (W, string) -> bool, db: (W, string, string) -> bool)

  ghost predicate Lacks<W>(has: Presence<W>, w: W, plan: Plan) {
    !has.sub(w, plan.domain) && !has.cert(w, plan.domain) && !has.db(w, plan.dbKind, plan.dbName)
  }

  /** A failing Create changes nothing.  A succeeding one, if its resource was absent, is
      undone by its Remove, and brings no other kind of resource with it. */
  ghost predicate AllOrNothing<W(!new), F(!new)>(p: Provider<W, F>, has: Presence<W>) {
    && (forall w, f, d, n :: !p.createSubdomain(w, f, d, n).1 ==> p.createSubdomain(w, f, d, n).0 == w)
    && (forall w, f, d :: !p.setupSSL(w, f, d).1 ==> p.setupSSL(w, f, d).0 == w)
    && (forall w, f, k, n :: !p.createDatabase(w, f, k, n).1 ==> p.createDatabase(w, f, k, n).0 == w)
    && (forall w, f, d, n :: p.createSubdomain(w, f, d, n).1 && !has.sub(w, d) ==>
          p.removeSubdomain(p.createSubdomain(w, f, d, n).0, d) == w)
    && (forall w, f, d :: p.setupSSL(w, f, d).1 && !has.cert(w, d) ==> p.removeSSL(p.setupSSL(w, f, d).0, d) == w)
    && (forall w, f, k, n :: p.createDatabase(w, f, k, n).1 && !has.db(w, k, n) ==>
          p.removeDatabase(p.createDatabase(w, f, k, n).0, k, n) == w)
    && (forall w, f, d, n, e :: has.cert(p.createSubdomain(w, f, d, n).0, e) ==> has.cert(w, e))
    && (forall w, f, d, n, k, m :: has.db(p.createSubdomain(w, f, d, n).0, k, m) ==> has.db(w, k, m))
    && (forall w, f, d, k, m :: has.db(p.setupSSL(w, f, d).0, k, m) ==> has.db(w, k, m))
  }

  lemma RunsRemoval<W, F>(p: Provider<W, F>, plan: Plan, at: PushTimes, w: W)
    ensures var run := StepRunner(p);
            && run(SubdomainStep(plan, at.sub), w).0 == p.removeSubdomain(w, plan.domain)
            && run(SSLStep(plan, at.ssl), w).0 == p.removeSSL(w, plan.domain)
            && run(DatabaseStep(plan, at.db), w).0 == p.removeDatabase(w, plan.dbKind, plan.dbName)
  {
    assert Param(SubdomainStep(plan, at.sub), "domain") == plan.domain;
    assert Param(SSLStep(plan, at.ssl), "domain") == plan.domain;
    assert "dbKind"[2] != "dbName"[2];
    assert Param(DatabaseStep(plan, at.db), "dbKind") == plan.dbKind;
    assert Param(DatabaseStep(plan, at.db), "dbName") == plan.dbName;
  }

  /** Whatever the provider, if it is all-or-nothing and the plan's resources were absent,
      then Execute stopped at any point but a failed Push, and rolled back, gives exactly
      the state the earlier stack alone would give from the initial one. */
  lemma AllOrNothingRestores<W(!new), F(!new)>(
    p: Provider<W, F>, has: Presence<W>, w0: W, s0: Store<CleanupStep>, plan: Plan, v: Validators, secret: SecretShape,
    env: Env<F>)
    requires AllOrNothing(p, has) && Lacks(has, w0, plan)
    requires Execute(p, w0, s0, plan, v, secret, env).exit
             !in {SubdomainCleanupFailed, SSLCleanupFailed, DatabaseCleanupFailed}
    ensures var e := Execute(p, w0, s0, plan, v, secret, env);
            Unwind(e.store.mem, e.world, StepRunner(p)) == Unwind(s0.mem, w0, StepRunner(p))
  {
    var e := Execute(p, w0, s0, plan, v, secret, env);
    var at, run := Times(env), StepRunner(p);
    var sub, ssl, db := SubdomainStep(plan, at.sub), SSLStep(plan, at.ssl), DatabaseStep(plan, at.db);
    var w1 := p.createSubdomain(w0, env.sub, plan.domain, plan.nodeVersion).0;
    var w2 := p.setupSSL(w1, env.ssl, plan.domain).0;
    var w3 := p.createDatabase(w2, env.db, plan.dbKind, plan.dbName).0;
    RunsRemoval(p, plan, at, w1);
    RunsRemoval(p, plan, at, w2);
    RunsRemoval(p, plan, at, w3);
    UnwindPush(s0.mem, sub, w1, run);
    UnwindPush(s0.mem + [sub], ssl, w2, run);
    UnwindPush(s0.mem + [sub] + [ssl], db, w3, run);
  }

  /** The same through the rollback loop, from an empty stack: the exact initial state. */
  lemma AllOrNothingRoundTrip<W(!new), F(!new)>(
    p: Provider<W, F>, has: Presence<W>, w0: W, disk: seq<CleanupStep>, plan: Plan, v: Validators, secret: SecretShape,
    env: Env<F>, ticks: nat -> Tick)
    requires AllOrNothing(p, has) && Lacks(has, w0, plan) && Undisturbed(ticks)
    requires Execute(p, w0, Store([], disk), plan, v, secret, env).exit
             !in {SubdomainCleanupFailed, SSLCleanupFailed, DatabaseCleanupFailed}
    ensures var e := Execute(p, w0, Store([], disk), plan, v, secret, env);
            var r := RollbackFrom(e.store, e.world, StepRunner(p), ticks, 0);
            && r.stop == Finished && r.world == w0 && r.store.mem == []
            && |r.results| == |e.store.mem|
            && forall j :: 0 <= j < |r.results| ==> !r.results[j].failed
  {
    var e := Execute(p, w0, Store([], disk), plan, v, secret, env);
    AllOrNothingRestores(p, has, w0, Store([], disk), plan, v, secret, env);
    RollbackRunsAll(e.store, e.world, StepRunner(p), ticks, 0);
    ExecutePushes(p, w0, Store([], disk), plan, v, secret, env);
    PanelStepsNeverFail(e.store, e.world, p, ticks, 0);
  }

  lemma SetPanelIsAllOrNothing()
    ensures AllOrNothing(SetPanel(),
              Presence((w: Panel, d: string) => d in w.subdomains, (w: Panel, d: string) => d in w.certs,
                       (w: Panel, k: string, n: string) => (k, n) in w.databases))
  {
  }

  /** The step whose Push Execute gave up on. */
  function FailedStep(plan: Plan, exit: Exit, at: PushTimes): CleanupStep
    requires exit in {SubdomainCleanupFailed, SSLCleanupFailed, DatabaseCleanupFailed}
  {
    match exit
    case SubdomainCleanupFailed => SubdomainStep(plan, at.sub)
    case SSLCleanupFailed => SSLStep(plan, at.ssl)
    case DatabaseCleanupFailed => DatabaseStep(plan, at.db)
  }

  function FailedPush<F>(exit: Exit, env: Env<F>): PushEnv
    requires exit in {SubdomainCleanupFailed, SSLCleanupFailed, DatabaseCleanupFailed}
  {
    match exit
    case SubdomainCleanupFailed => env.subPush
    case SSLCleanupFailed => env.sslPush
    case DatabaseCleanupFailed => env.dbPush
  }

  /** Removing one of the plan's resources does not depend on another having been removed before. */
  ghost predicate RemovalsCommute<W(!new), F>(p: Provider<W, F>, plan: Plan) {
    var d, k, n := plan.domain, plan.dbKind, plan.dbName;
    && (forall w :: p.removeSSL(p.removeSubdomain(w, d), d) == p.removeSubdomain(p.removeSSL(w, d), d))
    && (forall w :: p.removeDatabase(p.removeSubdomain(w, d), k, n) == p.removeSubdomain(p.removeDatabase(w, k, n), d))
    && (forall w :: p.removeDatabase(p.removeSSL(w, d), k, n) == p.removeSSL(p.removeDatabase(w, k, n), d))
  }

  lemma SetPanelCommutes(plan: Plan)
    ensures RemovalsCommute(SetPanel(), plan)
  {
  }

  /** The panel a rollback leaves when Execute stopped at a failed Push. */
  function LeftOf<W, F>(p: Provider<W, F>, w0: W, plan: Plan, env: Env<F>, exit: Exit): W {
    var w1 := p.createSubdomain(w0, env.sub, plan.domain, plan.nodeVersion).0;
    var w2 := p.setupSSL(w1, env.ssl, plan.domain).0;
    var w3 := p.createDatabase(w2, env.db, plan.dbKind, plan.dbName).0;
    match exit
    case SSLCleanupFailed => p.removeSubdomain(w2, plan.domain)
    case DatabaseCleanupFailed => p.removeSubdomain(p.removeSSL(w3, plan.domain), plan.domain)
    case _ => w1
  }

  lemma RollbackLeaves<W, F>(
    p: Provider<W, F>, w0: W, s0: Store<CleanupStep>, plan: Plan, v: Validators, secret: SecretShape, env: Env<F>)
    requires Execute(p, w0, s0, plan, v, secret, env).exit
             in {SubdomainCleanupFailed, SSLCleanupFailed, DatabaseCleanupFailed}
    ensures var e := Execute(p, w0, s0, plan, v, secret, env);
            Unwind(e.store.mem, e.world, StepRunner(p))
                == Unwind(s0.mem, LeftOf(p, w0, plan, env, e.exit), StepRunner(p))
  {
    var e := Execute(p, w0, s0, plan, v, secret, env);
    var at, run := Times(env), StepRunner(p);
    var sub, ssl := SubdomainStep(plan, at.sub), SSLStep(plan, at.ssl);
    ExecutePushes(p, w0, s0, plan, v, secret, env);
    if e.exit.SSLCleanupFailed? {
      UnwindPush(s0.mem, sub, e.world, run);
      RunsRemoval(p, plan, at, e.world);
    } else if e.exit.DatabaseCleanupFailed? {
      var w4 := p.removeSSL(e.world, plan.domain);
      assert s0.mem + [sub, ssl] == s0.mem + [sub] + [ssl];
      UnwindPush(s0.mem + [sub], ssl, e.world, run);
      UnwindPush(s0.mem, sub, w4, run);
      RunsRemoval(p, plan, at, e.world);
      RunsRemoval(p, plan, at, w4);
    } else {
      assert s0.mem + [] == s0.mem;
    }
  }

  /** Whatever the provider: when Execute stops at a failed Push, its rollback leaves exactly what
      the removal that Push was to record would take away. */
  lemma FailedPushLeavesOneResource<W(!new), F(!new)>(
    p: Provider<W, F>, has: Presence<W>, w0: W, s0: Store<CleanupStep>, plan: Plan, v: Validators, secret: SecretShape,
    env: Env<F>)
    requires AllOrNothing(p, has) && RemovalsCommute(p, plan) && Lacks(has, w0, plan)
    requires Execute(p, w0, s0, plan, v, secret, env).exit
             in {SubdomainCleanupFailed, SSLCleanupFailed, DatabaseCleanupFailed}
    ensures var e := Execute(p, w0, s0, plan, v, secret, env);
            var left := LeftOf(p, w0, plan, env, e.exit);
            && Unwind(e.store.mem, e.world, StepRunner(p)) == Unwind(s0.mem, left, StepRunner(p))
            && StepRunner(p)(FailedStep(plan, e.exit, Times(env)), left).0 == w0
  {
    LeftoverGoes(p, has, w0, plan, env);
    FailedPushLeaves(p, w0, s0, plan, v, secret, env);
  }

  lemma FailedPushLeaves<W, F>(
    p: Provider<W, F>, w0: W, s0: Store<CleanupStep>, plan: Plan, v: Validators, secret: SecretShape, env: Env<F>)
    requires NewestGoesLast(p, w0, plan, env)
    requires Execute(p, w0, s0, plan, v, secret, env).exit
             in {SubdomainCleanupFailed, SSLCleanupFailed, DatabaseCleanupFailed}
    ensures var e := Execute(p, w0, s0, plan, v, secret, env);
            var left := LeftOf(p, w0, plan, env, e.exit);
            && Unwind(e.store.mem, e.world, StepRunner(p)) == Unwind(s0.mem, left, StepRunner(p))
            && StepRunner(p)(FailedStep(plan, e.exit, Times(env)), left).0 == w0
  {
    RollbackLeaves(p, w0, s0, plan, v, secret, env);
    CreatedBefore(p, w0, s0, plan, v, secret, env);
    RunsRemoval(p, plan, Times(env), LeftOf(p, w0, plan, env, Execute(p, w0, s0, plan, v, secret, env).exit));
  }

  /** What must have succeeded for Execute to stop at a failed Push. */
  lemma CreatedBefore<W, F>(
    p: Provider<W, F>, w0: W, s0: Store<CleanupStep>, plan: Plan, v: Validators, secret: SecretShape, env: Env<F>)
    ensures var exit := Execute(p, w0, s0, plan, v, secret, env).exit;
            var (w1, ok1) := p.createSubdomain(w0, env.sub, plan.domain, plan.nodeVersion);
            var (w2, ok2) := p.setupSSL(w1, env.ssl, plan.domain);
            && (exit.SubdomainCleanupFailed? || exit.SSLCleanupFailed? || exit.DatabaseCleanupFailed? ==> ok1)
            && (exit.SSLCleanupFailed? || exit.DatabaseCleanupFailed? ==> ok2)
            && (exit.DatabaseCleanupFailed? ==> p.createDatabase(w2, env.db, plan.dbKind, plan.dbName).1)
  {
  }

  /** After one, two and three creations, the newest resource removed last leads back to the start. */
  ghost predicate NewestGoesLast<W, F>(p: Provider<W, F>, w0: W, plan: Plan, env: Env<F>) {
    var (w1, ok1) := p.createSubdomain(w0, env.sub, plan.domain, plan.nodeVersion);
    var (w2, ok2) := p.setupSSL(w1, env.ssl, plan.domain);
    var (w3, ok3) := p.createDatabase(w2, env.db, plan.dbKind, plan.dbName);
    ok1 ==>
      && p.removeSubdomain(w1, plan.domain) == w0
      && (ok2 ==>
            && p.removeSSL(p.removeSubdomain(w2, plan.domain), plan.domain) == w0
            && (ok3 ==>
                  var w4 := p.removeSubdomain(p.removeSSL(w3, plan.domain), plan.domain);
                  p.removeDatabase(w4, plan.dbKind, plan.dbName) == w0))
  }

  lemma LeftoverGoes<W(!new), F(!new)>(p: Provider<W, F>, has: Presence<W>, w0: W, plan: Plan, env: Env<F>)
    requires AllOrNothing(p, has) && RemovalsCommute(p, plan) && Lacks(has, w0, plan)
    ensures NewestGoesLast(p, w0, plan, env)
  {
    var w1 := p.createSubdomain(w0, env.sub, plan.domain, plan.nodeVersion).0;
    var (w2, ok2) := p.setupSSL(w1, env.ssl, plan.domain);
    var (w3, ok3) := p.createDatabase(w2, env.db, plan.dbKind, plan.dbName);
    assert ok2 ==> p.removeSSL(w2, plan.domain) == w1;
    if ok2 && ok3 {
      assert p.removeDatabase(w3, plan.dbKind, plan.dbName) == w2;
      assert p.removeDatabase(p.removeSSL(w3, plan.domain), plan.dbKind, plan.dbName) == w1;
    }
  }

  /** A Push that failed after its rename did reach the file: a crash and a resume from
      there, instead of a rollback, restores even the resource the rollback would leave. */
  lemma ResumeRestoresAfterLateFailure(
    w0: Panel, s0: Store<CleanupStep>, plan: Plan, v: Validators, secret: SecretShape, env: Env<bool>)
    requires Absent(w0, plan)
    requires var e := Execute(SetPanel(), w0, s0, plan, v, secret, env);
             && e.exit in {SubdomainCleanupFailed, SSLCleanupFailed, DatabaseCleanupFailed}
             && !FailedPush(e.exit, env).cancelled
             && FailedPush(e.exit, env).persist == FailedAfter
             && Accepted(FailedStep(plan, e.exit, Times(env)), secret)
    ensures var e := Execute(SetPanel(), w0, s0, plan, v, secret, env);
            Unwind(e.store.disk, e.world, StepRunner(SetPanel())) == Unwind(s0.mem, w0, StepRunner(SetPanel()))
  {
    var run, at := StepRunner(SetPanel()), Times(env);
    var e := Execute(SetPanel(), w0, s0, plan, v, secret, env);
    ExecutePushes(SetPanel(), w0, s0, plan, v, secret, env);
    assert e.world == AfterExecute(w0, plan, e.exit);
    var last := FailedStep(plan, e.exit, at);
    assert e.store.disk == e.store.mem + [last];
    UnwindPush(e.store.mem, last, e.world, run);
    UnwindRest(w0, s0.mem, plan, e.exit, at);
  }

  /** With the failed step run as well, what is left of Execute unwinds completely. */
  lemma UnwindRest(w0: Panel, mem: seq<CleanupStep>, plan: Plan, exit: Exit, at: PushTimes)
    requires Absent(w0, plan) && exit in {SubdomainCleanupFailed, SSLCleanupFailed, DatabaseCleanupFailed}
    ensures var run := StepRunner(SetPanel());
            var w := run(FailedStep(plan, exit, at), AfterExecute(w0, plan, exit)).0;
            Unwind(mem + PushedBy(plan, exit, at), w, run) == Unwind(mem, w0, run)
  {
    var before := AfterExecute(w0, plan, exit);
    var w := StepRunner(SetPanel())(FailedStep(plan, exit, at), before).0;
    match exit
    case SubdomainCleanupFailed =>
      UndoSubdomain(plan, at.sub, before);
      assert w.subdomains == w0.subdomains;
      assert mem + [] == mem;
    case SSLCleanupFailed =>
      UndoSSL(plan, at.ssl, before);
      assert w.certs == w0.certs;
      UnwindOne(w0, mem, w, plan, at);
    case DatabaseCleanupFailed =>
      UndoDatabase(plan, at.db, before);
      assert w.databases == w0.databases;
      UnwindTwo(w0, mem, w, plan, at);
  }
}
