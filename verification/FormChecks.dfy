/** The new-project form with its checks and executions running in the background
    (tui/update.go): keys are handled while replies are pending, and a reply is applied to
    whatever form is there when it arrives. */
module FormChecks {
  import opened Wrappers
  import opened WizardPlan
  import opened ProjectForm

  /** A command on its way: it keeps the profile, and the domain, it was started for. */
  datatype Check = Preflight(alias: string) | DomainCheck(alias: string, domain: string)

  datatype App = App(
    form: Form,
    pending: seq<Check>,        // commands whose reply has not been handled
    running: nat,               // Executes in flight
    executes: nat,              // Executes started from this form
    preflighted: set<string>,   // profiles a preflight passed for
    checked: Option<(string, string)>)   // the profile and domain whose check put the form under review

  datatype Answer = Passed | Failed

  datatype Action =
    | Key(e: Event)               // any key but Enter
    | EnterKey
    | Reply(i: nat, a: Answer)
    | Executed(ok: bool)
    | RollbackKey
    | RolledBack
    | Reopen                      // the wizard is left and a new one opened; replies stay on their way

  function Start(profiles: Profiles): App { App(New(profiles), [], 0, 0, {}, None) }

  /** CheckSubdomainAvailable refuses an empty domain. */
  predicate Enabled(a: App, profiles: Profiles, act: Action) {
    match act
    case Key(e) => !e.Enter? && !e.ExecFailed? && !e.ExecDone?
    case EnterKey => true
    case Reply(i, ans) => i < |a.pending| && (ans.Passed? && a.pending[i].DomainCheck? ==> a.pending[i].domain != "")
    case Executed(_) => a.running > 0
    case RollbackKey => a.form.step.Failure?
    case RolledBack => a.form.step.RollingBack?
    case Reopen => !a.form.step.Executing? && !a.form.step.RollingBack? && profiles != []
  }

  /** dispatchProjectWizardAsync. */
  function Dispatch(a: App, f: Form, profiles: Profiles): App {
    if f.profileAlias !in profiles then a.(form := f.(err := ProfileMissing))
    else if f.step.Domain? then
      var check := if f.preflightDone then DomainCheck(f.profileAlias, f.domain) else Preflight(f.profileAlias);
      a.(form := f, pending := a.pending + [check])
    else a.(form := f, running := a.running + 1, executes := a.executes + 1)
  }

  function Answered(a: App, i: nat, ans: Answer): App
    requires i < |a.pending|
  {
    var rest := a.pending[..i] + a.pending[i + 1..];
    match (a.pending[i], ans)
    case (Preflight(alias), Passed) =>
      // The domain check that follows is for that profile, but for the domain the form has by now.
      a.(form := a.form.(preflightDone := true), pending := rest + [DomainCheck(alias, a.form.domain)],
         preflighted := a.preflighted + {alias})
    case (Preflight(_), Failed) => a.(form := a.form.(err := PreflightError), pending := rest)
    case (DomainCheck(alias, d), Passed) =>
      a.(form := a.form.(step := Review, err := NoError), pending := rest, checked := Some((alias, d)))
    case (DomainCheck(_, _), Failed) => a.(form := a.form.(err := DomainTaken), pending := rest)
  }

  function Apply(a: App, profiles: Profiles, act: Action): App
    requires Enabled(a, profiles, act)
  {
    match act
    case Key(e) => a.(form := Handle(a.form, profiles, e))
    case EnterKey =>
      var (f, async) := Advance(a.form, profiles);
      if async then Dispatch(a, f, profiles) else a.(form := f)
    case Reply(i, ans) => Answered(a, i, ans)
    case Executed(ok) =>
      a.(form := a.form.(step := if ok then Done else Failure, executing := false), running := a.running - 1)
    case RollbackKey => a.(form := a.form.(step := RollingBack))
    case RolledBack => a.(form := a.form.(step := Done))
    case Reopen => a.(form := New(profiles), executes := 0, checked := None)
  }

  // ------------------------------------------------------- what a review must be

  /** The reviewed plan is consistent, its own profile was preflighted and its own domain checked
      there, and nothing was executed for it. */
  predicate Sound(a: App) {
    var plan := PlanOf(a.form);
    && DatabaseFieldsOk(plan)
    && plan.domain != ""
    && plan.profileAlias in a.preflighted
    && a.checked == Some((plan.profileAlias, plan.domain))
    && a.executes == 0 && a.running == 0
  }

  /** Check i is about to pass, for the very profile and domain the form has now, and that profile
      was preflighted. */
  predicate PassesFor(a: App, profiles: Profiles, i: nat) {
    && Enabled(a, profiles, Reply(i, Passed)) && a.pending[i].DomainCheck?
    && a.pending[i].alias == a.form.profileAlias && a.pending[i].domain == TrimSpace(a.form.domain)
    && a.form.profileAlias in a.preflighted
  }

  /** A passing domain check is prompt when it finds the form on the domain step, or under review
      already, with what it checked unchanged. */
  predicate Prompt(a: App, profiles: Profiles, act: Action) {
    act.Reply? && act.i < |a.pending| && act.a.Passed? && a.pending[act.i].DomainCheck? ==>
      (a.form.step.Domain? || a.form.step.Review?) && PassesFor(a, profiles, act.i)
  }

  ghost predicate PromptRun(a: App, profiles: Profiles, acts: seq<Action>, a': App)
    decreases |acts|
  {
    if acts == [] then a' == a
    else
      && Enabled(a, profiles, acts[0]) && Prompt(a, profiles, acts[0])
      && PromptRun(Apply(a, profiles, acts[0]), profiles, acts[1..], a')
  }

  predicate Undecided(s: FormStep) { !s.Executing? && !s.Failure? && !s.RollingBack? && !s.Done? }

  ghost predicate Consistent(a: App, profiles: Profiles) {
    && Inv(a.form)
    && (profiles != [] ==> a.form.profileAlias in profiles) && (profiles == [] ==> a.form.step.Profile?)
    && a.running == (if a.form.step.Executing? then 1 else 0)
    && a.executes == (if Undecided(a.form.step) then 0 else 1)
    && (a.form.step.Review? ==> Sound(a))
  }

  lemma SettledFields(f: Form)
    requires Inv(f) && NameSettled(f.step)
    ensures DatabaseFieldsOk(PlanOf(f))
  {
    assert "" !in SUPPORTED_DB_KINDS;
  }

  lemma ConsistentKey(a: App, profiles: Profiles, e: Event)
    requires Consistent(a, profiles) && Enabled(a, profiles, Key(e))
    ensures Consistent(Apply(a, profiles, Key(e)), profiles)
  {
    InvEvent(a.form, profiles, e);
    KeysStay(a.form, profiles, e);
  }

  /** Keys other than Enter neither reach the review nor leave an execution, and under review they
      change nothing the review rests on. */
  lemma KeysStay(f: Form, profiles: Profiles, e: Event)
    requires !e.Enter? && !e.ExecFailed? && !e.ExecDone?
    ensures var g := Handle(f, profiles, e);
            && (g.step.Review? ==> f.step.Review? && PlanOf(g) == PlanOf(f))
            && (Undecided(f.step) <==> Undecided(g.step)) && (!Undecided(f.step) ==> g.step == f.step)
            && (g.profileAlias == f.profileAlias || g.profileAlias in profiles)
            && (profiles == [] && f.step.Profile? ==> g.step.Profile?)
  {
    match e
    case ShiftTab =>
    case Cycle(delta) => CycleStays(f, profiles, delta);
    case _ =>
  }

  lemma CycleStays(f: Form, profiles: Profiles, delta: int)
    ensures var g := CycleSelection(f, profiles, delta);
            && g.step == f.step && (f.step.Review? ==> g == f)
            && (g.profileAlias == f.profileAlias || g.profileAlias in profiles)
  {
  }

  lemma ConsistentEnter(a: App, profiles: Profiles)
    requires Consistent(a, profiles)
    ensures Consistent(Apply(a, profiles, EnterKey), profiles)
  {
    if a.form.step.Review? {
      EnterReview(a, profiles);
    } else if a.form.step.Domain? {
      EnterDomain(a, profiles);
    } else {
      InvAdvance(a.form, profiles);
      AdvanceStays(a.form, profiles);
    }
  }

  lemma EnterReview(a: App, profiles: Profiles)
    requires Consistent(a, profiles) && a.form.step.Review?
    ensures Consistent(Apply(a, profiles, EnterKey), profiles)
  {
    InvAdvance(a.form, profiles);
  }

  lemma EnterDomain(a: App, profiles: Profiles)
    requires Consistent(a, profiles) && a.form.step.Domain?
    ensures Consistent(Apply(a, profiles, EnterKey), profiles)
  {
    InvAdvance(a.form, profiles);
  }

  /** Elsewhere Enter starts nothing and reaches neither the review nor an execution. */
  lemma AdvanceStays(f: Form, profiles: Profiles)
    requires !f.step.Review? && !f.step.Domain?
    ensures var (g, async) := Advance(f, profiles);
            && !async && !g.step.Review?
            && (Undecided(f.step) <==> Undecided(g.step)) && (!Undecided(f.step) ==> g.step == f.step)
            && (g.profileAlias == f.profileAlias || g.profileAlias in profiles)
            && (profiles == [] && f.step.Profile? ==> g.step.Profile?)
  {
  }

  lemma ConsistentReply(a: App, profiles: Profiles, i: nat, ans: Answer)
    requires Consistent(a, profiles) && Enabled(a, profiles, Reply(i, ans)) && Prompt(a, profiles, Reply(i, ans))
    ensures Consistent(Apply(a, profiles, Reply(i, ans)), profiles)
  {
    if a.pending[i].DomainCheck? && ans.Passed? {
      ConsistentReview(a, profiles, i);
    } else {
      assert Inv(Answered(a, i, ans).form);
    }
  }

  lemma ConsistentReview(a: App, profiles: Profiles, i: nat)
    requires Consistent(a, profiles) && Enabled(a, profiles, Reply(i, Passed)) && Prompt(a, profiles, Reply(i, Passed))
    requires a.pending[i].DomainCheck?
    ensures Consistent(Apply(a, profiles, Reply(i, Passed)), profiles)
  {
    SettledFields(a.form);
  }

  lemma ConsistentStep(a: App, profiles: Profiles, act: Action)
    requires Consistent(a, profiles) && Enabled(a, profiles, act) && Prompt(a, profiles, act)
    ensures Consistent(Apply(a, profiles, act), profiles)
  {
    match act
    case Key(e) => ConsistentKey(a, profiles, e);
    case EnterKey => ConsistentEnter(a, profiles);
    case Reply(i, ans) => ConsistentReply(a, profiles, i, ans);
    case Reopen => InvNew(profiles);
    case _ =>
  }

  lemma {:induction false} ConsistentRun(a: App, profiles: Profiles, acts: seq<Action>, a': App)
    requires Consistent(a, profiles) && PromptRun(a, profiles, acts, a')
    ensures Consistent(a', profiles)
    decreases |acts|
  {
    if acts != [] {
      ConsistentStep(a, profiles, acts[0]);
      ConsistentRun(Apply(a, profiles, acts[0]), profiles, acts[1..], a');
    }
  }

  /** Over every run in which passing domain checks are prompt, keys and other replies coming in any
      order: a form under review is sound, and no form ever starts two Executes. */
  lemma PromptRunsAreSound(profiles: Profiles, acts: seq<Action>, a: App)
    requires PromptRun(Start(profiles), profiles, acts, a)
    ensures a.form.step.Review? ==> Sound(a)
    ensures a.executes <= 1 && a.running <= 1
  {
    InvNew(profiles);
    ConsistentRun(Start(profiles), profiles, acts, a);
  }

  /** What each message does, whatever form it finds: a failed check leaves its message, a passed
      preflight asks for the domain the form has by now on the profile it was for, a finished Execute
      ends the execution. */
  lemma MessagesAre(a: App, profiles: Profiles, i: nat, ok: bool)
    ensures i < |a.pending| && a.pending[i].Preflight? ==>
              && Answered(a, i, Failed).form == a.form.(err := PreflightError)
              && Answered(a, i, Passed).form == a.form.(preflightDone := true)
              && a.pending[i].alias in Answered(a, i, Passed).preflighted
              && |Answered(a, i, Passed).pending| == |a.pending|
              && Answered(a, i, Passed).pending[|a.pending| - 1] == DomainCheck(a.pending[i].alias, a.form.domain)
    ensures i < |a.pending| && a.pending[i].DomainCheck? ==>
              && Answered(a, i, Failed).form == a.form.(err := DomainTaken)
              && |Answered(a, i, Passed).pending| == |a.pending| - 1
    ensures a.running > 0 ==>
              var b := Apply(a, profiles, Executed(ok));
              && b.form == a.form.(step := if ok then Done else Failure, executing := false)
              && b.running == a.running - 1 && b.executes == a.executes
  {
  }

  // ----------------------------------------------- the first reply that is not prompt

  ghost predicate Reached(profiles: Profiles, a: App) {
    exists acts :: PromptRun(Start(profiles), profiles, acts, a)
  }

  /** In every state reached so far, exactly when a passing domain check leaves a sound review: what it
      checked is what the form has, on a step before any execution, and either the name step was
      left behind or there is no name to miss. */
  lemma ReplyIsSoundIff(profiles: Profiles, a: App, i: nat)
    requires Reached(profiles, a) && Enabled(a, profiles, Reply(i, Passed)) && a.pending[i].DomainCheck?
    ensures Sound(Apply(a, profiles, Reply(i, Passed))) <==>
              && PassesFor(a, profiles, i) && Undecided(a.form.step)
              && (NameSettled(a.form.step) || !a.form.dbWanted || TrimSpace(a.form.dbName) != "")
  {
    ReachedIsConsistent(profiles, a);
    assert "" !in SUPPORTED_DB_KINDS;
    if NameSettled(a.form.step) { SettledFields(a.form); }
  }

  /** On this step, a passing check of what the form has always leaves a sound review. */
  ghost predicate SafeAt(s: FormStep) {
    forall profiles, a, i: nat :: Reached(profiles, a) && a.form.step == s && PassesFor(a, profiles, i) ==>
      Sound(Apply(a, profiles, Reply(i, Passed)))
  }

  /** The guard by step alone: it is enough exactly on the domain step and on the review itself. */
  lemma ReplyIsSafeIff(s: FormStep)
    ensures SafeAt(s) <==> s == Domain || s == Review
  {
    if s == Domain || s == Review {
      forall profiles, a, i: nat | Reached(profiles, a) && a.form.step == s && PassesFor(a, profiles, i)
        ensures Sound(Apply(a, profiles, Reply(i, Passed)))
      {
        ReplyIsSoundIff(profiles, a, i);
      }
    } else if Undecided(s) {
      var a := EarlierStep(s);
      NameMissing(a);
    } else {
      var a := LaterStep(s);
      assert PassesFor(a, ONE, 0) && !Sound(Apply(a, ONE, Reply(0, Passed)));
    }
  }

  lemma ReachedIsConsistent(profiles: Profiles, a: App)
    requires Reached(profiles, a)
    ensures Consistent(a, profiles)
  {
    var acts :| PromptRun(Start(profiles), profiles, acts, a);
    InvNew(profiles);
    ConsistentRun(Start(profiles), profiles, acts, a);
  }

  // ------------------------------------------------------------------ failing runs

  const ONE: Profiles := ["p"]

  lemma {:induction false} RunMore(a: App, profiles: Profiles, acts: seq<Action>, m: App, act: Action)
    requires PromptRun(a, profiles, acts, m) && Enabled(m, profiles, act) && Prompt(m, profiles, act)
    ensures PromptRun(a, profiles, acts + [act], Apply(m, profiles, act))
    decreases |acts|
  {
    if acts == [] {
      assert [] + [act] == [act] && [act][1..] == [];
      assert PromptRun(Apply(m, profiles, act), profiles, [], Apply(m, profiles, act));
    } else {
      RunMore(Apply(a, profiles, acts[0]), profiles, acts[1..], m, act);
      assert (acts + [act])[1..] == acts[1..] + [act];
    }
  }

  lemma Step(profiles: Profiles, a: App, act: Action) returns (a': App)
    requires Reached(profiles, a) && Enabled(a, profiles, act) && Prompt(a, profiles, act)
    ensures a' == Apply(a, profiles, act) && Reached(profiles, a')
  {
    var acts :| PromptRun(Start(profiles), profiles, acts, a);
    RunMore(Start(profiles), profiles, acts, a, act);
    a' := Apply(a, profiles, act);
  }

  lemma Next(a: App, act: Action) returns (a': App)
    requires Reached(ONE, a) && Enabled(a, ONE, act) && Prompt(a, ONE, act)
    ensures a' == Apply(a, ONE, act) && Reached(ONE, a')
  {
    a' := Step(ONE, a, act);
  }

  /** A static project for profile "p" with a database. */
  function FormAt(step: FormStep, wanted: bool, name: string, domain: string, checked: bool): Form {
    Form(step, "p", STACK_STATIC, domain, "22", wanted, DB_MYSQL, name, 0, 0, 0, NoError, checked, false)
  }

  lemma Letters()
    ensures TrimSpace("a") == "a" && TrimSpace("d") == "d" && TrimSpace("") == ""
    ensures STACK_STATIC in SUPPORTED_STACKS && DB_MYSQL in SUPPORTED_DB_KINDS && "p" in ONE
  {
    assert TrimLeft("a") == "a" && TrimLeft("d") == "d";
  }

  lemma ReachName() returns (a: App)
    ensures Reached(ONE, a) && a == App(FormAt(DBName, true, "", "", false), [], 0, 0, {}, None)
  {
    Letters();
    a := Start(ONE);
    assert a.form == FormAt(Profile, false, "", "", false);
    assert PromptRun(a, ONE, [], a);
    a := Next(a, EnterKey);
    assert a.form == FormAt(Stack, false, "", "", false);
    a := Next(a, EnterKey);
    assert a.form == FormAt(DBChoice, false, "", "", false);
    a := Next(a, Key(ChooseYes));
    a := Next(a, EnterKey);
    a := Next(a, EnterKey);
  }

  lemma ReachDomain() returns (a: App)
    ensures Reached(ONE, a) && a == App(FormAt(Domain, true, "a", "d", false), [], 0, 0, {}, None)
  {
    Letters();
    a := ReachName();
    a := Next(a, Key(Typed("a")));
    assert a.form == FormAt(DBName, true, "a", "", false);
    a := Next(a, EnterKey);
    a := Next(a, Key(Typed("d")));
  }

  /** A run from a new form to one whose own domain is being checked. */
  lemma ReachCheck() returns (a: App)
    ensures Reached(ONE, a)
    ensures a == App(FormAt(Domain, true, "a", "d", true), [DomainCheck("p", "d")], 0, 0, {"p"}, None)
  {
    Letters();
    a := ReachDomain();
    a := Next(a, EnterKey);
    assert a.form == FormAt(Domain, true, "a", "d", false) && a.pending == [Preflight("p")];
    a := Next(a, Reply(0, Passed));
  }

  /** While the check runs, back to the name, delete it, and further back. */
  lemma EarlierStep(s: FormStep) returns (a: App)
    requires Undecided(s) && s != Domain && s != Review
    ensures Reached(ONE, a) && a == App(FormAt(s, true, "", "d", true), [DomainCheck("p", "d")], 0, 0, {"p"}, None)
  {
    a := ReachCheck();
    a := Next(a, Key(ShiftTab));
    a := Next(a, Key(Backspace));
    assert a.form == FormAt(DBName, true, "", "d", true);
    if s == DBName { return; }
    a := Next(a, Key(ShiftTab));
    assert a.form == FormAt(DBKind, true, "", "d", true);
    if s == DBKind { return; }
    a := Next(a, Key(ShiftTab));
    if s == DBChoice { return; }
    a := Next(a, Key(ShiftTab));
    if s == Stack { return; }
    a := Next(a, Key(ShiftTab));
  }

  lemma NameMissing(a: App)
    requires exists s :: a == App(FormAt(s, true, "", "d", true), [DomainCheck("p", "d")], 0, 0, {"p"}, None)
    ensures PassesFor(a, ONE, 0) && !Sound(Apply(a, ONE, Reply(0, Passed)))
  {
    Letters();
    var p := PlanOf(Apply(a, ONE, Reply(0, Passed)).form);
    assert p.dbName == "" && p.dbKind != "";
  }

  /** Enter twice on the domain step starts two checks; the first is prompt and the plan is carried
      out while the second is still on its way. */
  lemma ReachExecuting() returns (a: App)
    ensures Reached(ONE, a) && a.form.step == Executing && a.pending == [DomainCheck("p", "d")]
    ensures a.executes == 1 && a.running == 1
    ensures a.form.profileAlias == "p" && a.form.domain == "d" && a.preflighted == {"p"}
  {
    Letters();
    a := ReachReview();
    a := Next(a, EnterKey);
  }

  lemma ReachReview() returns (a: App)
    ensures Reached(ONE, a)
    ensures a == App(FormAt(Review, true, "a", "d", true), [DomainCheck("p", "d")], 0, 0, {"p"}, Some(("p", "d")))
  {
    Letters();
    a := ReachCheck();
    a := Next(a, EnterKey);
    assert a.form == FormAt(Domain, true, "a", "d", true);
    assert a.pending == [DomainCheck("p", "d"), DomainCheck("p", "d")];
    a := Next(a, Reply(0, Passed));
  }

  lemma LaterStep(s: FormStep) returns (a: App)
    requires !Undecided(s)
    ensures Reached(ONE, a) && a.form.step == s && PassesFor(a, ONE, 0) && a.executes == 1
  {
    Letters();
    a := ReachExecuting();
    if s == Executing { return; }
    a := Next(a, Executed(false));
    if s == Failure { return; }
    a := Next(a, RollbackKey);
    if s == RollingBack { return; }
    a := Next(a, RolledBack);
  }

  /** One reply that is not prompt is enough for two Executes of the same form at once. */
  lemma LateReplyStartsASecondExecute()
    ensures exists a :: Reached(ONE, a) && a.form.step.Executing? && Enabled(a, ONE, Reply(0, Passed))
                     && Apply(Apply(a, ONE, Reply(0, Passed)), ONE, EnterKey).running == 2
  {
    Letters();
    var a := ReachExecuting();
    var b := Apply(a, ONE, Reply(0, Passed));
    assert b.form.step == Review && b.form.profileAlias in ONE;
    assert Apply(b, ONE, EnterKey).running == 2;
  }

  // ------------------------------------------------------- the profile changes meanwhile

  const TWO: Profiles := ["p", "q"]

  /** A static project without a database, for the profile at this place of TWO. */
  function PlainAt(step: FormStep, at: int, domain: string, preflighted: bool): Form
    requires 0 <= at < 2
  {
    Form(step, TWO[at], STACK_STATIC, domain, "22", false, DB_MYSQL, "", 0, 0, at, NoError, preflighted, false)
  }

  lemma ReachPlainDomain() returns (a: App)
    ensures Reached(TWO, a) && a == App(PlainAt(Domain, 0, "", false), [], 0, 0, {}, None)
  {
    Letters();
    a := Start(TWO);
    assert PromptRun(a, TWO, [], a);
    assert a.form == PlainAt(Profile, 0, "", false);
    a := Step(TWO, a, EnterKey);
    a := Step(TWO, a, EnterKey);
    assert a.form == PlainAt(DBChoice, 0, "", false);
    a := Step(TWO, a, EnterKey);
  }

  lemma ReachPlainCheck() returns (a: App)
    ensures Reached(TWO, a) && a == App(PlainAt(Domain, 0, "d", true), [DomainCheck("p", "d")], 0, 0, {"p"}, None)
  {
    Letters();
    a := ReachPlainDomain();
    a := Step(TWO, a, Key(Typed("d")));
    assert a.form == PlainAt(Domain, 0, "d", false);
    a := Step(TWO, a, EnterKey);
    assert a.pending == [Preflight("p")];
    a := Step(TWO, a, Reply(0, Passed));
    assert a.form == PlainAt(Domain, 0, "d", true) && a.preflighted == {"p"};
  }

  /** Back from the domain to the profiles, on to the second one, and forward to the domain again:
      nothing on the form shows that the preflight was for the first. */
  lemma SwitchProfile(a: App) returns (b: App)
    requires Reached(TWO, a) && a.form == PlainAt(Domain, 0, "d", true).(err := a.form.err)
    ensures Reached(TWO, b) && b == a.(form := PlainAt(Domain, 1, "d", true))
  {
    Letters();
    b := Step(TWO, a, Key(ShiftTab));
    b := Step(TWO, b, Key(ShiftTab));
    b := Step(TWO, b, Key(ShiftTab));
    assert b.form == PlainAt(Profile, 0, "d", true);
    b := Step(TWO, b, Key(Cycle(1)));
    assert b.form == PlainAt(Profile, 1, "d", true);
    b := Step(TWO, b, EnterKey);
    b := Step(TWO, b, EnterKey);
    assert b.form == PlainAt(DBChoice, 1, "d", true);
    b := Step(TWO, b, EnterKey);
  }

  /** A check of the first profile lands on a form for the second, on the domain step and with the
      very domain it checked: the review is for a panel nobody asked. */
  lemma CheckOfAnotherProfile()
    ensures exists a :: Reached(TWO, a) && a.form.step.Domain? && a.pending == [DomainCheck("p", "d")]
                     && a.form.domain == "d" && a.form.profileAlias == "q"
                     && !Sound(Apply(a, TWO, Reply(0, Passed)))
  {
    var a := ReachPlainCheck();
    var b := SwitchProfile(a);
    assert b.form.profileAlias == "q" && "q" != "p";
  }

  /** Even with every reply handled at once: the first profile's check fails, the second profile is
      chosen, and its check goes out and passes without any preflight of it. */
  lemma PreflightOfAnotherProfile()
    ensures exists a :: Reached(TWO, a) && a.form.step.Domain? && a.pending == [DomainCheck("q", "d")]
                     && a.form.domain == "d" && a.form.profileAlias == "q" && "q" !in a.preflighted
                     && !Sound(Apply(a, TWO, Reply(0, Passed)))
  {
    Letters();
    var a := ReachPlainCheck();
    a := Step(TWO, a, Reply(0, Failed));
    assert a.pending == [];
    var b := SwitchProfile(a);
    b := Step(TWO, b, EnterKey);
    assert b.pending == [DomainCheck("q", "d")] && "q" !in b.preflighted by { assert "q" != "p"; }
  }

  /** The profile is not changed once a preflight passed, and a preflight passes only for the profile
      the form has. */
  predicate Steady(a: App, act: Action) {
    match act
    case Key(e) => e.Cycle? && a.form.step.Profile? ==> !a.form.preflightDone
    case EnterKey => a.form.step.Profile? && a.form.profileAlias == "" ==> !a.form.preflightDone
    case Reply(i, ans) =>
      ans.Passed? && i < |a.pending| && a.pending[i].Preflight? ==> a.pending[i].alias == a.form.profileAlias
    case _ => true
  }

  ghost predicate SteadyRun(a: App, profiles: Profiles, acts: seq<Action>, a': App)
    decreases |acts|
  {
    if acts == [] then a' == a
    else
      && Enabled(a, profiles, acts[0]) && Steady(a, acts[0])
      && SteadyRun(Apply(a, profiles, acts[0]), profiles, acts[1..], a')
  }

  ghost predicate PreflightCovers(a: App) {
    && (a.form.preflightDone ==> a.form.profileAlias in a.preflighted)
    && forall i :: 0 <= i < |a.pending| && a.pending[i].DomainCheck? ==> a.pending[i].alias in a.preflighted
  }

  lemma KeysKeepTheProfile(f: Form, profiles: Profiles, e: Event)
    requires !e.Enter? && !e.ExecFailed? && !e.ExecDone?
    ensures var g := Handle(f, profiles, e);
            && (g.preflightDone ==> f.preflightDone)
            && (!(e.Cycle? && f.step.Profile?) ==> g.profileAlias == f.profileAlias)
  {
  }

  lemma AdvanceKeepsTheProfile(f: Form, profiles: Profiles)
    ensures var g := Advance(f, profiles).0;
            && g.preflightDone == f.preflightDone
            && (!(f.step.Profile? && f.profileAlias == "") ==> g.profileAlias == f.profileAlias)
  {
  }

  /** Over every such run, late replies included, each domain check on its way is of a profile whose
      preflight passed: the condition on preflights then takes care of itself. */
  lemma {:induction false} SteadyRunsArePreflighted(a: App, profiles: Profiles, acts: seq<Action>, a': App)
    requires SteadyRun(a, profiles, acts, a') && PreflightCovers(a)
    ensures PreflightCovers(a')
    decreases |acts|
  {
    if acts != [] {
      match acts[0] {
        case Key(e) => KeysKeepTheProfile(a.form, profiles, e);
        case EnterKey => AdvanceKeepsTheProfile(a.form, profiles);
        case _ =>
      }
      SteadyRunsArePreflighted(Apply(a, profiles, acts[0]), profiles, acts[1..], a');
    }
  }
}
