/** The cPanel adapter's multi-call operations (providers/cpanel/methods.go), and what
    they leave behind when the wizard rolls back. */
module CPanel {
  import opened Wrappers
  import opened WizardSteps
  import opened WizardStack
  import opened WizardPlan
  import opened WizardExecute

  /** What the account holds; `apps` are Passenger applications by path. */
  datatype Panel = Panel(domains: set<string>, apps: set<string>, certs: set<string>, dbs: set<string>,
                         users: set<string>)

  /** The profile settings and shape checks the adapter reads.  Nothing is assumed about
      the path template: two domains may share an application path. */
  datatype Config = Config(appPath: string -> string, rootOk: string -> bool, autoSSL: bool, v: Validators)

  /** Which panel calls of one operation break.  A call that reports an error had no effect. */
  datatype Faults = Faults(
    addDomain: bool, createApp: bool,
    startSSL: bool, pollCancelled: bool,
    password: bool, createDb: bool, createUser: bool, privileges: bool, undoUser: bool, undoDb: bool)

  datatype Error = InvalidConfig | Taken | CallFailed

  datatype Result = Fine | Err(e: Error)

  // ---------------------------------------------------------- operations

  function CreateSubdomain(w: Panel, f: Faults, domain: string, node: string, c: Config): (Panel, Result) {
    if !c.v.domain(domain) || !c.v.nodeVersion(node) then (w, Err(InvalidConfig))
    else if !c.rootOk(domain) then (w, Err(InvalidConfig))
    else if domain in w.domains then (w, Err(Taken))
    else if f.addDomain then (w, Err(CallFailed))
    else
      var w1 := w.(domains := w.domains + {domain});
      if c.appPath(domain) in w.apps then (w1, Err(Taken))
      else if f.createApp then (w1, Err(CallFailed))
      else (w1.(apps := w.apps + {c.appPath(domain)}), Fine)
  }

  /** An AutoSSL run whose poll wait is cancelled reports an error after it was started. */
  function SetupSSL(w: Panel, f: Faults, domain: string, c: Config): (Panel, Result) {
    if !c.v.domain(domain) || !c.autoSSL then (w, Err(InvalidConfig))
    else if f.startSSL then (w, Err(CallFailed))
    else
      var w1 := w.(certs := w.certs + {domain});
      (w1, if f.pollCancelled then Err(CallFailed) else Fine)
  }

  function CreateDatabase(w: Panel, f: Faults, kind: string, name: string, c: Config): (Panel, Result) {
    if kind != DB_MYSQL || !c.v.dbName(name) then (w, Err(InvalidConfig))
    else if f.password then (w, Err(CallFailed))
    else if name in w.dbs then (w, Err(Taken))
    else if f.createDb then (w, Err(CallFailed))
    else
      var w1 := w.(dbs := w.dbs + {name});
      if name in w.users || f.createUser then
        (if f.undoDb then w1 else w1.(dbs := w1.dbs - {name}), Err(if name in w.users then Taken else CallFailed))
      else
        var w2 := w1.(users := w.users + {name});
        if f.privileges then
          var w3 := if f.undoUser then w2 else w2.(users := w2.users - {name});
          (if f.undoDb then w3 else w3.(dbs := w3.dbs - {name}), Err(CallFailed))
        else (w2, Fine)
  }

  /** RemoveSubdomain; `stuck` breaks the application delete, `stuckDomain` the domain delete. */
  function RemoveSubdomain(w: Panel, domain: string, stuck: bool, stuckDomain: bool, c: Config): (Panel, Result) {
    if !c.v.domain(domain) then (w, Err(InvalidConfig))
    else if stuck then (w, Err(CallFailed))
    else
      var w1 := w.(apps := w.apps - {c.appPath(domain)});
      if stuckDomain then (w1, Err(CallFailed))
      else (w1.(domains := w1.domains - {domain}), Fine)
  }

  function RemoveDatabase(w: Panel, kind: string, name: string, stuck: bool, stuckDb: bool, c: Config)
    : (Panel, Result)
  {
    if kind != DB_MYSQL || !c.v.dbName(name) then (w, Err(InvalidConfig))
    else if stuck then (w, Err(CallFailed))
    else
      var w1 := w.(users := w.users - {name});
      if stuckDb then (w1, Err(CallFailed))
      else (w1.(dbs := w1.dbs - {name}), Fine)
  }

  // ------------------------------------------------------ the adapter, call by call

  datatype Call = Landed | Clash | NotFound | Broken

  /** mapResourceNotFound: a missing resource counts as removed. */
  predicate Removed(r: Call) { r.Landed? || r.NotFound? }

  class Account {
    const cfg: Config
    var panel: Panel

    constructor (c: Config, w: Panel)
      ensures cfg == c && panel == w
    {
      cfg, panel := c, w;
    }

    method CreateDb(name: string, broken: bool) returns (r: Call)
      modifies this
      ensures r == if name in old(panel).dbs then Clash else if broken then Broken else Landed
      ensures panel == if r.Landed? then old(panel).(dbs := old(panel).dbs + {name}) else old(panel)
    {
      if name in panel.dbs { return Clash; }
      if broken { return Broken; }
      panel := panel.(dbs := panel.dbs + {name});
      r := Landed;
    }

    method CreateUser(name: string, broken: bool) returns (r: Call)
      modifies this
      ensures r == if name in old(panel).users then Clash else if broken then Broken else Landed
      ensures panel == if r.Landed? then old(panel).(users := old(panel).users + {name}) else old(panel)
    {
      if name in panel.users { return Clash; }
      if broken { return Broken; }
      panel := panel.(users := panel.users + {name});
      r := Landed;
    }

    method DeleteDb(name: string, broken: bool) returns (r: Call)
      modifies this
      ensures r == if broken then Broken else if name in old(panel).dbs then Landed else NotFound
      ensures panel == if broken then old(panel) else old(panel).(dbs := old(panel).dbs - {name})
    {
      if broken { return Broken; }
      r := if name in panel.dbs then Landed else NotFound;
      panel := panel.(dbs := panel.dbs - {name});
    }

    method DeleteUser(name: string, broken: bool) returns (r: Call)
      modifies this
      ensures r == if broken then Broken else if name in old(panel).users then Landed else NotFound
      ensures panel == if broken then old(panel) else old(panel).(users := old(panel).users - {name})
    {
      if broken { return Broken; }
      r := if name in panel.users then Landed else NotFound;
      panel := panel.(users := panel.users - {name});
    }

    method NewDatabase(kind: string, name: string, f: Faults) returns (r: Result)
      modifies this
      ensures (panel, r) == CreateDatabase(old(panel), f, kind, name, cfg)
    {
      if kind != DB_MYSQL { return Err(InvalidConfig); }
      if !cfg.v.dbName(name) { return Err(InvalidConfig); }
      if f.password { return Err(CallFailed); }
      var call := CreateDb(name, f.createDb);
      if !call.Landed? { return Err(if call.Clash? then Taken else CallFailed); }
      call := CreateUser(name, f.createUser);
      if !call.Landed? {
        r := Err(if call.Clash? then Taken else CallFailed);
        call := DeleteDb(name, f.undoDb);
        return;
      }
      if f.privileges {
        call := DeleteUser(name, f.undoUser);
        call := DeleteDb(name, f.undoDb);
        return Err(CallFailed);
      }
      r := Fine;
    }

    method DropDatabase(kind: string, name: string, stuck: bool, stuckDb: bool) returns (r: Result)
      modifies this
      ensures (panel, r) == RemoveDatabase(old(panel), kind, name, stuck, stuckDb, cfg)
    {
      if kind != DB_MYSQL { return Err(InvalidConfig); }
      if !cfg.v.dbName(name) { return Err(InvalidConfig); }
      var call := DeleteUser(name, stuck);
      if !Removed(call) { return Err(CallFailed); }
      call := DeleteDb(name, stuckDb);
      if !Removed(call) { return Err(CallFailed); }
      r := Fine;
    }

    method AddDomain(domain: string, broken: bool) returns (r: Call)
      modifies this
      ensures r == if domain in old(panel).domains then Clash else if broken then Broken else Landed
      ensures panel == if r.Landed? then old(panel).(domains := old(panel).domains + {domain}) else old(panel)
    {
      if domain in panel.domains { return Clash; }
      if broken { return Broken; }
      panel := panel.(domains := panel.domains + {domain});
      r := Landed;
    }

    method CreateApp(path: string, broken: bool) returns (r: Call)
      modifies this
      ensures r == if path in old(panel).apps then Clash else if broken then Broken else Landed
      ensures panel == if r.Landed? then old(panel).(apps := old(panel).apps + {path}) else old(panel)
    {
      if path in panel.apps { return Clash; }
      if broken { return Broken; }
      panel := panel.(apps := panel.apps + {path});
      r := Landed;
    }

    method DeleteApp(path: string, broken: bool) returns (r: Call)
      modifies this
      ensures r == if broken then Broken else if path in old(panel).apps then Landed else NotFound
      ensures panel == if broken then old(panel) else old(panel).(apps := old(panel).apps - {path})
    {
      if broken { return Broken; }
      r := if path in panel.apps then Landed else NotFound;
      panel := panel.(apps := panel.apps - {path});
    }

    method DeleteDomain(domain: string, broken: bool) returns (r: Call)
      modifies this
      ensures r == if broken then Broken else if domain in old(panel).domains then Landed else NotFound
      ensures panel == if broken then old(panel) else old(panel).(domains := old(panel).domains - {domain})
    {
      if broken { return Broken; }
      r := if domain in panel.domains then Landed else NotFound;
      panel := panel.(domains := panel.domains - {domain});
    }

    method NewSubdomain(domain: string, node: string, f: Faults) returns (r: Result)
      modifies this
      ensures (panel, r) == CreateSubdomain(old(panel), f, domain, node, cfg)
    {
      if !cfg.v.domain(domain) { return Err(InvalidConfig); }
      if !cfg.v.nodeVersion(node) { return Err(InvalidConfig); }
      if !cfg.rootOk(domain) { return Err(InvalidConfig); }
      var call := AddDomain(domain, f.addDomain);
      if !call.Landed? { return Err(if call.Clash? then Taken else CallFailed); }
      call := CreateApp(cfg.appPath(domain), f.createApp);
      if !call.Landed? { return Err(if call.Clash? then Taken else CallFailed); }
      r := Fine;
    }

    method DropSubdomain(domain: string, stuck: bool, stuckDomain: bool) returns (r: Result)
      modifies this
      ensures (panel, r) == RemoveSubdomain(old(panel), domain, stuck, stuckDomain, cfg)
    {
      if !cfg.v.domain(domain) { return Err(InvalidConfig); }
      var call := DeleteApp(cfg.appPath(domain), stuck);
      if !Removed(call) { return Err(CallFailed); }
      call := DeleteDomain(domain, stuckDomain);
      if !Removed(call) { return Err(CallFailed); }
      r := Fine;
    }
  }

  // -------------------------------------------------------------- properties

  /** CreateDatabase creates exactly the database and its user, or, when its compensating
      deletes go through, nothing at all. */
  lemma DatabaseIsAllOrNothing(w: Panel, f: Faults, kind: string, name: string, c: Config)
    ensures var (w', r) := CreateDatabase(w, f, kind, name, c);
            && (r.Fine? ==> name !in w.dbs && name !in w.users
                            && w' == w.(dbs := w.dbs + {name}, users := w.users + {name}))
            && (r.Err? && !f.undoUser && !f.undoDb ==> w' == w)
  {
    assert name !in w.dbs ==> w.dbs + {name} - {name} == w.dbs;
    assert name !in w.users ==> w.users + {name} - {name} == w.users;
  }

  /** In general a failed CreateDatabase leaves behind exactly the resources it had created
      and could not delete again, and a user that existed before is never touched. */
  function DatabaseDebris(w: Panel, f: Faults, kind: string, name: string, c: Config): (bool, bool) {
    var reachedDb := kind == DB_MYSQL && c.v.dbName(name) && !f.password && name !in w.dbs && !f.createDb;
    var reachedUser := reachedDb && name !in w.users && !f.createUser;
    (reachedDb && f.undoDb, reachedUser && f.undoUser)
  }

  lemma FailedDatabaseLeavesDebris(w: Panel, f: Faults, kind: string, name: string, c: Config)
    requires CreateDatabase(w, f, kind, name, c).1.Err?
    ensures var (db, user) := DatabaseDebris(w, f, kind, name, c);
            CreateDatabase(w, f, kind, name, c).0
            == w.(dbs := if db then w.dbs + {name} else w.dbs, users := if user then w.users + {name} else w.users)
  {
    assert name !in w.dbs ==> w.dbs + {name} - {name} == w.dbs;
    assert name !in w.users ==> w.users + {name} - {name} == w.users;
  }

  /** Removing twice equals removing once, for any first outcome that got through. */
  lemma RemovalsAreIdempotent(w: Panel, domain: string, kind: string, name: string, c: Config)
    ensures var (w1, r1) := RemoveDatabase(w, kind, name, false, false, c);
            RemoveDatabase(w1, kind, name, false, false, c) == (w1, r1)
    ensures var (w1, r1) := RemoveSubdomain(w, domain, false, false, c);
            RemoveSubdomain(w1, domain, false, false, c) == (w1, r1)
    ensures forall stuck, stuckDb :: var w1 := RemoveDatabase(w, kind, name, stuck, stuckDb, c).0;
              RemoveDatabase(w1, kind, name, false, false, c) == RemoveDatabase(w, kind, name, false, false, c)
    ensures forall stuck, stuckDomain :: var w1 := RemoveSubdomain(w, domain, stuck, stuckDomain, c).0;
              RemoveSubdomain(w1, domain, false, false, c) == RemoveSubdomain(w, domain, false, false, c)
  {
    assert w.users - {name} - {name} == w.users - {name};
    assert w.dbs - {name} - {name} == w.dbs - {name};
    assert w.apps - {c.appPath(domain)} - {c.appPath(domain)} == w.apps - {c.appPath(domain)};
    assert w.domains - {domain} - {domain} == w.domains - {domain};
  }

  /** A failed CreateSubdomain leaves nothing, or exactly the new domain entry. */
  lemma FailedSubdomainLeavesTheDomain(w: Panel, f: Faults, domain: string, node: string, c: Config)
    requires CreateSubdomain(w, f, domain, node, c).1.Err?
    ensures var w' := CreateSubdomain(w, f, domain, node, c).0;
            w' == w || (domain !in w.domains && w' == w.(domains := w.domains + {domain}))
  {
  }

  // ------------------------------------------------ under the wizard's Execute

  function AsProvider(c: Config): Provider<Panel, Faults> {
    Provider(
      (w: Panel, f: Faults, d: string, n: string) =>
        var (w', r) := CreateSubdomain(w, f, d, n, c); (w', r.Fine?),
      (w: Panel, f: Faults, d: string) =>
        var (w', r) := SetupSSL(w, f, d, c); (w', r.Fine?),
      (w: Panel, f: Faults, k: string, n: string) =>
        var (w', r) := CreateDatabase(w, f, k, n, c); (w', r.Fine?),
      (w: Panel, d: string) => RemoveSubdomain(w, d, false, false, c).0,
      (w: Panel, d: string) => if c.v.domain(d) then w.(certs := w.certs - {d}) else w,
      (w: Panel, k: string, n: string) => RemoveDatabase(w, k, n, false, false, c).0)
  }

  ghost predicate Absent(w: Panel, plan: Plan, c: Config) {
    && plan.domain !in w.domains && c.appPath(plan.domain) !in w.apps && plan.domain !in w.certs
    && plan.dbName !in w.dbs && plan.dbName !in w.users
  }

  /** Exactly what is left after Execute and a complete rollback, by where Execute stopped. */
  function LeftBehind(w0: Panel, plan: Plan, env: Env<Faults>, exit: Exit, c: Config): Panel {
    var domain := w0.domains + {plan.domain};
    match exit
    case SubdomainFailed => if c.rootOk(plan.domain) && !env.sub.addDomain then w0.(domains := domain) else w0
    case SubdomainCleanupFailed => w0.(domains := domain, apps := w0.apps + {c.appPath(plan.domain)})
    case SSLFailed => if c.autoSSL && !env.ssl.startSSL then w0.(certs := w0.certs + {plan.domain}) else w0
    case SSLCleanupFailed => w0.(certs := w0.certs + {plan.domain})
    case DatabaseFailed =>
      var (db, user) := DatabaseDebris(w0, env.db, plan.dbKind, plan.dbName, c);
      w0.(dbs := if db then w0.dbs + {plan.dbName} else w0.dbs,
          users := if user then w0.users + {plan.dbName} else w0.users)
    case DatabaseCleanupFailed => w0.(dbs := w0.dbs + {plan.dbName}, users := w0.users + {plan.dbName})
    case _ => w0
  }

  lemma UndoSub(plan: Plan, now: int, w: Panel, c: Config)
    requires c.v.domain(plan.domain)
    ensures StepRunner(AsProvider(c))(SubdomainStep(plan, now), w).0
            == w.(apps := w.apps - {c.appPath(plan.domain)}, domains := w.domains - {plan.domain})
  {
    assert Param(SubdomainStep(plan, now), "domain") == plan.domain;
  }

  lemma UndoCert(plan: Plan, now: int, w: Panel, c: Config)
    requires c.v.domain(plan.domain)
    ensures StepRunner(AsProvider(c))(SSLStep(plan, now), w).0 == w.(certs := w.certs - {plan.domain})
  {
    assert Param(SSLStep(plan, now), "domain") == plan.domain;
  }

  lemma UndoDb(plan: Plan, now: int, w: Panel, c: Config)
    requires plan.dbKind == DB_MYSQL && c.v.dbName(plan.dbName)
    ensures StepRunner(AsProvider(c))(DatabaseStep(plan, now), w).0
            == w.(users := w.users - {plan.dbName}, dbs := w.dbs - {plan.dbName})
  {
    assert "dbKind"[2] != "dbName"[2];
    assert Param(DatabaseStep(plan, now), "dbKind") == plan.dbKind;
    assert Param(DatabaseStep(plan, now), "dbName") == plan.dbName;
  }

  /** Rolling back the two earlier cleanups from a panel `w` that still has both resources. */
  lemma UnwindBoth(w0: Panel, mem: seq<CleanupStep>, w: Panel, plan: Plan, at: PushTimes, c: Config)
    requires Absent(w0, plan, c) && c.v.domain(plan.domain)
    requires w.domains == w0.domains + {plan.domain} && w.apps == w0.apps + {c.appPath(plan.domain)}
    requires w.certs == w0.certs + {plan.domain}
    ensures var run := StepRunner(AsProvider(c));
            Unwind(mem + [SubdomainStep(plan, at.sub), SSLStep(plan, at.ssl)], w, run)
            == Unwind(mem, w.(domains := w0.domains, apps := w0.apps, certs := w0.certs), run)
  {
    var sub, ssl, run := SubdomainStep(plan, at.sub), SSLStep(plan, at.ssl), StepRunner(AsProvider(c));
    assert mem + [sub, ssl] == (mem + [sub]) + [ssl];
    UnwindPush(mem + [sub], ssl, w, run);
    UndoCert(plan, at.ssl, w, c);
    assert w.certs - {plan.domain} == w0.certs;
    UnwindSub(w0, mem, w.(certs := w0.certs), plan, at, c);
  }

  lemma UnwindSub(w0: Panel, mem: seq<CleanupStep>, w: Panel, plan: Plan, at: PushTimes, c: Config)
    requires Absent(w0, plan, c) && c.v.domain(plan.domain)
    requires w.domains == w0.domains + {plan.domain} && w.apps == w0.apps + {c.appPath(plan.domain)}
    ensures var run := StepRunner(AsProvider(c));
            Unwind(mem + [SubdomainStep(plan, at.sub)], w, run)
            == Unwind(mem, w.(domains := w0.domains, apps := w0.apps), run)
  {
    UnwindPush(mem, SubdomainStep(plan, at.sub), w, StepRunner(AsProvider(c)));
    UndoSub(plan, at.sub, w, c);
    assert w.domains - {plan.domain} == w0.domains;
    assert w.apps - {c.appPath(plan.domain)} == w0.apps;
  }

  /** The panel right after Execute. */
  function AfterExec(w0: Panel, plan: Plan, env: Env<Faults>, exit: Exit, c: Config): Panel {
    var w1 := w0.(domains := w0.domains + {plan.domain}, apps := w0.apps + {c.appPath(plan.domain)});
    var w2 := w1.(certs := w0.certs + {plan.domain});
    match exit
    case SubdomainCleanupFailed => w1
    case SSLFailed => w1.(certs := LeftBehind(w0, plan, env, exit, c).certs)
    case SSLCleanupFailed => w2
    case DatabaseFailed => w2.(dbs := LeftBehind(w0, plan, env, exit, c).dbs,
                               users := LeftBehind(w0, plan, env, exit, c).users)
    case DatabaseCleanupFailed => w2.(dbs := w0.dbs + {plan.dbName}, users := w0.users + {plan.dbName})
    case Done =>
      if WantsDatabase(plan) then w2.(dbs := w0.dbs + {plan.dbName}, users := w0.users + {plan.dbName}) else w2
    case _ => LeftBehind(w0, plan, env, exit, c)
  }

  lemma AfterExecIs(w0: Panel, s0: Store<CleanupStep>, plan: Plan, secret: SecretShape, env: Env<Faults>, c: Config)
    requires Absent(w0, plan, c)
    ensures var e := Execute(AsProvider(c), w0, s0, plan, c.v, secret, env);
            && e.world == AfterExec(w0, plan, env, e.exit, c)
            && (!e.exit.InvalidPlan? ==> c.v.domain(plan.domain))
            && ((e.exit.Done? && WantsDatabase(plan)) || e.exit.DatabaseCleanupFailed? ==>
                  plan.dbKind == DB_MYSQL && c.v.dbName(plan.dbName))
  {
    var e := Execute(AsProvider(c), w0, s0, plan, c.v, secret, env);
    if TriedDatabase(plan, e.exit) {
      DatabaseTried(w0, s0, plan, secret, env, c);
      DatabaseAfter(w0, WithBoth(w0, plan, c), env.db, plan.dbKind, plan.dbName, c);
    }
  }

  predicate TriedDatabase(plan: Plan, exit: Exit) {
    exit.DatabaseFailed? || exit.DatabaseCleanupFailed? || (exit.Done? && WantsDatabase(plan))
  }

  /** The panel with the plan's subdomain and certificate. */
  function WithBoth(w0: Panel, plan: Plan, c: Config): Panel {
    w0.(domains := w0.domains + {plan.domain}, apps := w0.apps + {c.appPath(plan.domain)},
        certs := w0.certs + {plan.domain})
  }

  lemma DatabaseTried(w0: Panel, s0: Store<CleanupStep>, plan: Plan, secret: SecretShape, env: Env<Faults>, c: Config)
    requires Absent(w0, plan, c)
    requires TriedDatabase(plan, Execute(AsProvider(c), w0, s0, plan, c.v, secret, env).exit)
    ensures var e := Execute(AsProvider(c), w0, s0, plan, c.v, secret, env);
            var (w, r) := CreateDatabase(WithBoth(w0, plan, c), env.db, plan.dbKind, plan.dbName, c);
            e.world == w && (e.exit.DatabaseFailed? <==> r.Err?)
  {
  }

  lemma DatabaseAfter(w0: Panel, w: Panel, f: Faults, kind: string, name: string, c: Config)
    requires w.dbs == w0.dbs && w.users == w0.users && name !in w.dbs && name !in w.users
    ensures var (w', r) := CreateDatabase(w, f, kind, name, c);
            var (db, user) := DatabaseDebris(w0, f, kind, name, c);
            && (r.Fine? ==> kind == DB_MYSQL && c.v.dbName(name)
                            && w' == w.(dbs := w0.dbs + {name}, users := w0.users + {name}))
            && (r.Err? ==> w' == w.(dbs := if db then w0.dbs + {name} else w0.dbs,
                                    users := if user then w0.users + {name} else w0.users))
  {
    if CreateDatabase(w, f, kind, name, c).1.Err? { FailedDatabaseLeavesDebris(w, f, kind, name, c); }
  }

  /** With cPanel, Execute stopped anywhere and then completely rolled back leaves exactly
      `LeftBehind`: the domain entry when only the application failed, a certificate whose
      poll wait was cancelled, database debris whose compensation failed, or the one
      resource whose Push failed.  Nothing else, and nothing older is lost. */
  lemma RollbackLeavesExactly(
    w0: Panel, s0: Store<CleanupStep>, plan: Plan, secret: SecretShape, env: Env<Faults>, c: Config)
    requires Absent(w0, plan, c)
    ensures var e, run := Execute(AsProvider(c), w0, s0, plan, c.v, secret, env), StepRunner(AsProvider(c));
            Unwind(e.store.mem, e.world, run) == Unwind(s0.mem, LeftBehind(w0, plan, env, e.exit, c), run)
  {
    var p := AsProvider(c);
    var e := Execute(p, w0, s0, plan, c.v, secret, env);
    ExecutePushes(p, w0, s0, plan, c.v, secret, env);
    AfterExecIs(w0, s0, plan, secret, env, c);
    UnwindExit(w0, s0.mem, plan, env, e.exit, Times(env), c);
  }

  lemma UnwindExit(w0: Panel, mem: seq<CleanupStep>, plan: Plan, env: Env<Faults>, exit: Exit, at: PushTimes, c: Config)
    requires Absent(w0, plan, c)
    requires !exit.InvalidPlan? ==> c.v.domain(plan.domain)
    requires exit.Done? && WantsDatabase(plan) ==> plan.dbKind == DB_MYSQL && c.v.dbName(plan.dbName)
    ensures var run := StepRunner(AsProvider(c));
            Unwind(mem + PushedBy(plan, exit, at), AfterExec(w0, plan, env, exit, c), run)
            == Unwind(mem, LeftBehind(w0, plan, env, exit, c), run)
  {
    var run, w := StepRunner(AsProvider(c)), AfterExec(w0, plan, env, exit, c);
    match exit
    case InvalidPlan => assert mem + [] == mem;
    case SubdomainFailed => assert mem + [] == mem;
    case SubdomainCleanupFailed => assert mem + [] == mem;
    case SSLFailed => UnwindSub(w0, mem, w, plan, at, c);
    case SSLCleanupFailed => UnwindSub(w0, mem, w, plan, at, c);
    case DatabaseFailed => UnwindBoth(w0, mem, w, plan, at, c);
    case DatabaseCleanupFailed => UnwindBoth(w0, mem, w, plan, at, c);
    case Done =>
      var sub, ssl, db := SubdomainStep(plan, at.sub), SSLStep(plan, at.ssl), DatabaseStep(plan, at.db);
      if WantsDatabase(plan) {
        assert mem + ([sub, ssl] + [db]) == (mem + [sub, ssl]) + [db];
        UnwindPush(mem + [sub, ssl], db, w, run);
        UndoDb(plan, at.db, w, c);
        assert w.users - {plan.dbName} == w0.users && w.dbs - {plan.dbName} == w0.dbs;
        UnwindBoth(w0, mem, run(db, w).0, plan, at, c);
      } else {
        assert [sub, ssl] + [] == [sub, ssl];
        UnwindBoth(w0, mem, w, plan, at, c);
      }
  }

  // ------------------------------------------------- when rollback restores everything

  /** Where Execute will stop on a panel without the plan's resources. */
  function ExitFor(plan: Plan, env: Env<Faults>, c: Config, secret: SecretShape): Exit {
    if !ValidatePlan(plan, c.v) then InvalidPlan
    else if !c.rootOk(plan.domain) || env.sub.addDomain || env.sub.createApp then SubdomainFailed
    else if !Pushes(SubdomainStep(plan, env.subPush.now), env.subPush, secret) then SubdomainCleanupFailed
    else if !c.autoSSL || env.ssl.startSSL || env.ssl.pollCancelled then SSLFailed
    else if !Pushes(SSLStep(plan, env.sslPush.now), env.sslPush, secret) then SSLCleanupFailed
    else if plan.dbName == "" then Done
    else if plan.dbKind != DB_MYSQL || env.db.password || env.db.createDb then DatabaseFailed
    else if env.db.createUser || env.db.privileges then DatabaseFailed
    else if !Pushes(DatabaseStep(plan, env.dbPush.now), env.dbPush, secret) then DatabaseCleanupFailed
    else Done
  }

  lemma ExitIs(w0: Panel, s0: Store<CleanupStep>, plan: Plan, secret: SecretShape, env: Env<Faults>, c: Config)
    requires Absent(w0, plan, c)
    ensures Execute(AsProvider(c), w0, s0, plan, c.v, secret, env).exit == ExitFor(plan, env, c, secret)
  {
  }

  /** What has to go right, or be undone by the adapter itself, for a rollback to restore the panel:
      once a resource may exist, its cleanup must be recorded. */
  predicate Restorable(plan: Plan, env: Env<Faults>, c: Config, secret: SecretShape) {
    ValidatePlan(plan, c.v) && c.rootOk(plan.domain) && !env.sub.addDomain ==>
      && !env.sub.createApp
      && Pushes(SubdomainStep(plan, env.subPush.now), env.subPush, secret)
      && (c.autoSSL && !env.ssl.startSSL ==>
            && !env.ssl.pollCancelled
            && Pushes(SSLStep(plan, env.sslPush.now), env.sslPush, secret)
            && (plan.dbName != "" && plan.dbKind == "mysql" && !env.db.password && !env.db.createDb ==>
                  DatabaseRecoverable(plan, env, secret)))
  }

  predicate DatabaseRecoverable(plan: Plan, env: Env<Faults>, secret: SecretShape) {
    if env.db.createUser then !env.db.undoDb
    else if env.db.privileges then !env.db.undoUser && !env.db.undoDb
    else Pushes(DatabaseStep(plan, env.dbPush.now), env.dbPush, secret)
  }

  lemma LeavesNothingIff(w0: Panel, plan: Plan, env: Env<Faults>, c: Config, secret: SecretShape)
    requires Absent(w0, plan, c)
    ensures LeftBehind(w0, plan, env, ExitFor(plan, env, c, secret), c) == w0 <==> Restorable(plan, env, c, secret)
  {
    var exit := ExitFor(plan, env, c, secret);
    var left := LeftBehind(w0, plan, env, exit, c);
    assert left.domains == w0.domains <==> plan.domain !in left.domains;
    assert left.certs == w0.certs <==> plan.domain !in left.certs;
    assert left.dbs == w0.dbs <==> plan.dbName !in left.dbs;
    assert left.users == w0.users <==> plan.dbName !in left.users;
  }

  /** From an empty stack, Execute followed by a complete rollback restores the panel exactly when
      `Restorable` says so, before anything was called. */
  lemma RollbackRestoresIff(w0: Panel, disk: seq<CleanupStep>, plan: Plan, secret: SecretShape, env: Env<Faults>,
                            c: Config)
    requires Absent(w0, plan, c)
    ensures var e := Execute(AsProvider(c), w0, Store([], disk), plan, c.v, secret, env);
            Unwind(e.store.mem, e.world, StepRunner(AsProvider(c))) == w0 <==> Restorable(plan, env, c, secret)
  {
    RollbackLeavesExactly(w0, Store([], disk), plan, secret, env, c);
    ExitIs(w0, Store([], disk), plan, secret, env, c);
    LeavesNothingIff(w0, plan, env, c, secret);
  }

  /** The family the adapter's comment overlooks: the application cannot be registered, nothing was
      stacked, and the domain stays. */
  lemma FailedAppLeavesTheDomain(w0: Panel, disk: seq<CleanupStep>, plan: Plan, secret: SecretShape, env: Env<Faults>,
                                 c: Config)
    requires Absent(w0, plan, c) && ValidatePlan(plan, c.v) && c.rootOk(plan.domain)
    requires !env.sub.addDomain && env.sub.createApp
    ensures var e := Execute(AsProvider(c), w0, Store([], disk), plan, c.v, secret, env);
            && e.store.mem == []
            && Unwind(e.store.mem, e.world, StepRunner(AsProvider(c))) == w0.(domains := w0.domains + {plan.domain})
  {
    RollbackLeavesExactly(w0, Store([], disk), plan, secret, env, c);
    ExitIs(w0, Store([], disk), plan, secret, env, c);
    ExecutePushes(AsProvider(c), w0, Store([], disk), plan, c.v, secret, env);
  }

  /** When Execute is done with cPanel, exactly what was planned is there. */
  lemma DoneIsProvisioned(
    w0: Panel, s0: Store<CleanupStep>, plan: Plan, secret: SecretShape, env: Env<Faults>, c: Config)
    requires Absent(w0, plan, c)
    requires Execute(AsProvider(c), w0, s0, plan, c.v, secret, env).exit.Done?
    ensures var db := if plan.dbName == "" then {} else {plan.dbName};
            Execute(AsProvider(c), w0, s0, plan, c.v, secret, env).world
            == Panel.Panel(w0.domains + {plan.domain}, w0.apps + {c.appPath(plan.domain)}, w0.certs + {plan.domain},
                           w0.dbs + db, w0.users + db)
  {
    AfterExecIs(w0, s0, plan, secret, env, c);
    PlanIsValidIff(plan, c.v);
    assert w0.dbs + {} == w0.dbs && w0.users + {} == w0.users;
  }

  /** Which error a failing CreateDatabase reports. */
  lemma DatabaseErrors(w: Panel, f: Faults, kind: string, name: string, c: Config)
    ensures var r := CreateDatabase(w, f, kind, name, c).1;
            && (r == Err(InvalidConfig) <==> kind != "mysql" || !c.v.dbName(name))
            && (kind == "mysql" && c.v.dbName(name) && !f.password ==>
                  && (name in w.dbs ==> r == Err(Taken))
                  && (name !in w.dbs && !f.createDb && name in w.users ==> r == Err(Taken)))
            && (name !in w.dbs && name !in w.users ==> r != Err(Taken))
  {
  }

  /** Which error a failing CreateSubdomain reports. */
  lemma SubdomainErrors(w: Panel, f: Faults, domain: string, node: string, c: Config)
    ensures var r := CreateSubdomain(w, f, domain, node, c).1;
            var ok := c.v.domain(domain) && c.v.nodeVersion(node) && c.rootOk(domain);
            && (r == Err(InvalidConfig) <==> !ok)
            && (ok && domain in w.domains ==> r == Err(Taken))
            && (ok && domain !in w.domains && !f.addDomain && c.appPath(domain) in w.apps ==> r == Err(Taken))
            && (domain !in w.domains && c.appPath(domain) !in w.apps ==> r != Err(Taken))
  {
  }

  /** A removal takes away exactly its own resources, refuses what is not its to remove, and reports a
      call that broke with what went before it done. */
  lemma RemovalsAre(w: Panel, kind: string, name: string, domain: string, stuck: bool, stuckLast: bool, c: Config)
    ensures RemoveDatabase(w, kind, name, stuck, stuckLast, c)
            == if kind != "mysql" || !c.v.dbName(name) then (w, Err(InvalidConfig))
               else if stuck then (w, Err(CallFailed))
               else if stuckLast then (w.(users := w.users - {name}), Err(CallFailed))
               else (w.(users := w.users - {name}, dbs := w.dbs - {name}), Fine)
    ensures RemoveSubdomain(w, domain, stuck, stuckLast, c)
            == if !c.v.domain(domain) then (w, Err(InvalidConfig))
               else if stuck then (w, Err(CallFailed))
               else if stuckLast then (w.(apps := w.apps - {c.appPath(domain)}), Err(CallFailed))
               else (w.(apps := w.apps - {c.appPath(domain)}, domains := w.domains - {domain}), Fine)
  {
  }
}
