/** The new-project form of tui/wizard.go, with the messages tui/update.go feeds it. */
module ProjectForm {
  import opened WizardPlan

  datatype FormStep =
    | Profile | Stack | DBChoice | DBKind | DBName | Domain | Review
    | Executing | Failure | RollingBack | Done

  datatype FormError =
    | NoError | NoProfile | BadStack | BadDBKind | NameRequired | DomainRequired
    | PreflightError | DomainTaken | ProfileMissing

  datatype Form = Form(
    step: FormStep,
    profileAlias: string, stack: string, domain: string, nodeVersion: string,
    dbWanted: bool, dbKind: string, dbName: string,
    stackCursor: int, dbKindCursor: int, profileCursor: int,
    err: FormError, preflightDone: bool, executing: bool)

  /** The configured profile aliases; no configuration counts as none. */
  type Profiles = seq<string>

  const MAX_DOMAIN := 253
  const MAX_DB_NAME := 32

  // ----------------------------------------------------------------- helpers

  /** unicode.IsSpace, for the Latin-1 range. */
  predicate IsSpace(c: char) {
    c in {'\t', '\n', '\U{000b}', '\U{000c}', '\r', ' ', '\U{0085}', '\U{00a0}'}
  }

  function TrimLeft(s: string): string {
    if s != "" && IsSpace(s[0]) then TrimLeft(s[1..]) else s
  }

  function TrimTail(s: string): string {
    if s != "" && IsSpace(s[|s| - 1]) then TrimTail(s[..|s| - 1]) else s
  }

  function TrimSpace(s: string): string { TrimTail(TrimLeft(s)) }

  function CapInput(s: string, upper: nat): string { if |s| <= upper then s else s[..upper] }

  function TrimRight(s: string): string { if s == "" then s else s[..|s| - 1] }

  function WrapIndex(i: int, n: int): int { if n <= 0 then 0 else i % n }

  /** wrap: repeated addition reaches the same index as a non-negative remainder. */
  method Wrap(i: int, n: int) returns (r: int)
    ensures r == WrapIndex(i, n)
    ensures n > 0 ==> 0 <= r < n
  {
    if n <= 0 { return 0; }
    var k := i;
    while k < 0
      invariant k % n == i % n
    {
      SameRemainder(k, n);
      k := k + n;
    }
    r := k % n;
  }

  lemma SameRemainder(k: int, n: int)
    requires n > 0
    ensures (k + n) % n == k % n
  {
    var q, r := k / n, k % n;
    assert k + n == n * (q + 1) + r;
    Remainder(k + n, n, q + 1, r);
  }

  lemma Remainder(x: int, n: int, q: int, r: int)
    requires n > 0 && 0 <= r < n && x == n * q + r
    ensures x % n == r
  {
    var d := q - x / n;
    assert n * d == x % n - r;
    MultipleOutside(n, d);
  }

  lemma MultipleOutside(n: int, d: int)
    requires n > 0
    ensures d == 0 || n * d >= n || n * d <= -n
  {
    assert d > 0 ==> n * (d - 1) >= 0;
    assert d < 0 ==> n * (-d - 1) >= 0;
  }

  // -------------------------------------------------------------- transitions

  function New(profiles: Profiles): Form {
    var stack := SUPPORTED_STACKS[0];
    Form(Profile, if profiles == [] then "" else profiles[0], stack, "", DefaultNodeVersion(stack),
         IsDBRequired(stack), DB_MYSQL, "", 0, 0, 0, NoError, false, false)
  }

  function PlanOf(f: Form): Plan {
    Plan(f.profileAlias, f.stack, TrimSpace(f.domain), TrimSpace(f.nodeVersion),
         if f.dbWanted then f.dbKind else "", if f.dbWanted then TrimSpace(f.dbName) else "")
  }

  /** validateAndAdvance; the flag asks the caller for asynchronous work. */
  function Advance(f0: Form, profiles: Profiles): (Form, bool) {
    var f := f0.(err := NoError);
    match f.step
    case Profile =>
      if profiles == [] then (f.(err := NoProfile), false)
      else (f.(profileAlias := if f.profileAlias == "" then profiles[0] else f.profileAlias, step := Stack), false)
    case Stack =>
      if !IsValidStack(f.stack) then (f.(err := BadStack), false)
      else
        var g := f.(nodeVersion := DefaultNodeVersion(f.stack));
        if IsDBRequired(f.stack) then (g.(dbWanted := true, step := DBKind), false)
        else (g.(dbWanted := false, step := DBChoice), false)
    case DBChoice =>
      if f.dbWanted then (f.(step := DBKind), false) else (f.(dbName := "", step := Domain), false)
    case DBKind =>
      if !IsValidDBKind(f.dbKind) then (f.(err := BadDBKind), false) else (f.(step := DBName), false)
    case DBName =>
      var name := TrimSpace(f.dbName);
      if name == "" then (f.(err := NameRequired), false)
      else (f.(dbName := name, step := Domain), false)
    case Domain =>
      var domain := TrimSpace(f.domain);
      if domain == "" then (f.(err := DomainRequired), false) else (f.(domain := domain), true)
    case Review => (f.(step := Executing, executing := true), true)
    case _ => (f, false)
  }

  function StepBack(f0: Form): Form {
    var f := f0.(err := NoError);
    match f.step
    case Stack => f.(step := Profile)
    case DBChoice => f.(step := Stack)
    case DBKind => f.(step := if IsDBRequired(f.stack) then Stack else DBChoice)
    case DBName => f.(step := DBKind)
    case Domain => f.(step := if f.dbWanted then DBName else DBChoice)
    case Review => f.(step := Domain, preflightDone := false)
    case _ => f
  }

  function AppendInput(f: Form, s: string): Form {
    match f.step
    case Domain => f.(domain := CapInput(f.domain + s, MAX_DOMAIN))
    case DBName => f.(dbName := CapInput(f.dbName + s, MAX_DB_NAME))
    case _ => f
  }

  function BackspaceInput(f: Form): Form {
    match f.step
    case Domain => f.(domain := TrimRight(f.domain))
    case DBName => f.(dbName := TrimRight(f.dbName))
    case _ => f
  }

  function CycleSelection(f: Form, profiles: Profiles, delta: int): Form {
    match f.step
    case Profile =>
      if profiles == [] then f
      else
        var i := WrapIndex(f.profileCursor + delta, |profiles|);
        f.(profileCursor := i, profileAlias := profiles[i])
    case Stack =>
      var i := WrapIndex(f.stackCursor + delta, |SUPPORTED_STACKS|);
      f.(stackCursor := i, stack := SUPPORTED_STACKS[i])
    case DBChoice => f.(dbWanted := !f.dbWanted)
    case DBKind =>
      var i := WrapIndex(f.dbKindCursor + delta, |SUPPORTED_DB_KINDS|);
      f.(dbKindCursor := i, dbKind := SUPPORTED_DB_KINDS[i])
    case _ => f
  }

  // ------------------------------------------------------------------- events

  /** The answer to the asynchronous preflight and domain check. */
  datatype CheckReply = PreflightFailed | DomainRefused | DomainFree

  /** applyPreflight and applyDomainCheck, whatever step the form is on by then. */
  function ApplyReply(f: Form, r: CheckReply): Form {
    match r
    case PreflightFailed => f.(err := PreflightError)
    case DomainRefused => f.(preflightDone := true, err := DomainTaken)
    case DomainFree => f.(preflightDone := true, step := Review, err := NoError)
  }

  datatype Event =
    | Enter(reply: CheckReply)   // the reply to the check this key may start, handled before the next key
    | ShiftTab | Backspace | Typed(s: string) | Cycle(delta: int)
    | ChooseYes | ChooseNo
    | ExecFailed | ExecDone

  function Handle(f: Form, profiles: Profiles, e: Event): Form {
    match e
    case Enter(reply) =>
      var (g, async) := Advance(f, profiles);
      if async && g.step.Domain? then ApplyReply(g, reply) else g
    case ShiftTab => StepBack(f)
    case Backspace => BackspaceInput(f)
    case Typed(s) => AppendInput(f, s)
    case Cycle(delta) => CycleSelection(f, profiles, delta)
    case ChooseYes => if f.step.DBChoice? then f.(dbWanted := true) else f
    case ChooseNo => if f.step.DBChoice? then f.(dbWanted := false) else f
    case ExecFailed => if f.step.Executing? then f.(step := Failure, executing := false) else f
    case ExecDone => if f.step.Executing? then f.(step := Done, executing := false) else f
  }

  function Run(f: Form, profiles: Profiles, es: seq<Event>): Form
    decreases |es|
  {
    if es == [] then f else Run(Handle(f, profiles, es[0]), profiles, es[1..])
  }

  // ---------------------------------------------------------------- invariant

  predicate PastStack(s: FormStep) { !s.Profile? && !s.Stack? }

  predicate NameSettled(s: FormStep) { PastStack(s) && !s.DBChoice? && !s.DBKind? && !s.DBName? }

  ghost predicate Inv(f: Form) {
    && IsValidStack(f.stack) && IsValidDBKind(f.dbKind)
    && (PastStack(f.step) && IsDBRequired(f.stack) ==> f.dbWanted && !f.step.DBChoice?)
    && (f.step.DBKind? || f.step.DBName? ==> f.dbWanted)
    && (NameSettled(f.step) && f.dbWanted ==> TrimSpace(f.dbName) != "")
  }

  lemma InvNew(profiles: Profiles)
    ensures Inv(New(profiles))
  {
    assert New(profiles).stack == STACK_STATIC;
    assert STACK_STATIC in SUPPORTED_STACKS && DB_MYSQL in SUPPORTED_DB_KINDS;
  }

  lemma InvEvent(f: Form, profiles: Profiles, e: Event)
    requires Inv(f)
    ensures Inv(Handle(f, profiles, e))
  {
    match e
    case Enter(reply) => InvEnter(f, profiles, reply);
    case Cycle(delta) => InvCycle(f, profiles, delta);
    case ShiftTab => InvStepBack(f);
    case _ =>
  }

  lemma InvEnter(f: Form, profiles: Profiles, reply: CheckReply)
    requires Inv(f)
    ensures Inv(Handle(f, profiles, Enter(reply)))
  {
    InvAdvance(f, profiles);
    var (g, async) := Advance(f, profiles);
    assert g.step.Domain? ==> Inv(ApplyReply(g, reply));
  }

  lemma InvAdvance(f: Form, profiles: Profiles)
    requires Inv(f)
    ensures Inv(Advance(f, profiles).0)
  {
    if f.step.DBName? {
      InvName(f, profiles);
    } else if f.step.Stack? {
      InvStack(f, profiles);
    }
  }

  lemma InvName(f: Form, profiles: Profiles)
    requires Inv(f) && f.step.DBName?
    ensures Inv(Advance(f, profiles).0)
  {
    TrimIsStable(f.dbName);
  }

  lemma InvStack(f: Form, profiles: Profiles)
    requires Inv(f) && f.step.Stack?
    ensures Inv(Advance(f, profiles).0)
  {
  }

  lemma InvCycle(f: Form, profiles: Profiles, delta: int)
    requires Inv(f)
    ensures Inv(CycleSelection(f, profiles, delta))
  {
  }

  lemma InvStepBack(f: Form)
    requires Inv(f)
    ensures Inv(StepBack(f))
  {
  }

  lemma {:induction false} TrimLeftEnd(s: string)
    ensures TrimLeft(s) != "" ==> !IsSpace(TrimLeft(s)[0])
  {
    if s != "" && IsSpace(s[0]) { TrimLeftEnd(s[1..]); }
  }

  lemma {:induction false} TrimTailEnd(s: string)
    ensures TrimTail(s) <= s
    ensures TrimTail(s) != "" ==> !IsSpace(TrimTail(s)[|TrimTail(s)| - 1])
  {
    if s != "" && IsSpace(s[|s| - 1]) { TrimTailEnd(s[..|s| - 1]); }
  }

  /** Trimming twice is trimming once. */
  lemma TrimIsStable(s: string)
    ensures TrimSpace(TrimSpace(s)) == TrimSpace(s)
  {
    var l := TrimLeft(s);
    TrimLeftEnd(s);
    TrimTailEnd(l);
    var t := TrimTail(l);
    assert t != "" ==> t[0] == l[0];
    assert TrimLeft(t) == t;
  }

  lemma {:induction false} InvRun(f: Form, profiles: Profiles, es: seq<Event>)
    requires Inv(f)
    ensures Inv(Run(f, profiles, es))
    decreases |es|
  {
    if es != [] {
      InvEvent(f, profiles, es[0]);
      InvRun(Handle(f, profiles, es[0]), profiles, es[1..]);
    }
  }

  // ----------------------------------------------------------------- theorems

  /** After any keystrokes, a form under review yields a plan that passes ValidatePlan's
      database pairing and kind rules, on a supported stack, and a stack that requires a
      database has one. */
  lemma ReviewedPlanIsConsistent(profiles: Profiles, es: seq<Event>)
    ensures var f := Run(New(profiles), profiles, es);
            f.step.Review? ==>
              && DatabaseFieldsOk(PlanOf(f)) && IsValidStack(PlanOf(f).stack)
              && (IsDBRequired(f.stack) ==> PlanOf(f).dbKind != "" && PlanOf(f).dbName != "")
  {
    InvNew(profiles);
    InvRun(New(profiles), profiles, es);
    var f := Run(New(profiles), profiles, es);
    if f.step.Review? && f.dbWanted {
      assert "" !in SUPPORTED_DB_KINDS;
    }
  }

  /** The form with the answers of its step settled, as advancing settles them. */
  function Settled(f0: Form, profiles: Profiles): Form {
    var f := f0.(err := NoError);
    match f.step
    case Profile => if f.profileAlias == "" && profiles != [] then f.(profileAlias := profiles[0]) else f
    case Stack => f.(nodeVersion := DefaultNodeVersion(f.stack), dbWanted := IsDBRequired(f.stack))
    case DBChoice => if f.dbWanted then f else f.(dbName := "")
    case DBName => f.(dbName := TrimSpace(f.dbName))
    case Domain => f.(domain := TrimSpace(f.domain), preflightDone := false)
    case _ => f
  }

  /** Nothing on the form is overwritten by advancing: the stack's own defaults are in place, no name
      is kept for an unwanted database, text is trimmed, and no message is shown. */
  predicate AlreadySettled(f: Form, profiles: Profiles) {
    && f.err == NoError
    && match f.step
       case Profile => f.profileAlias != "" || (profiles != [] && profiles[0] == "")
       case Stack => f.dbWanted == IsDBRequired(f.stack) && f.nodeVersion == DefaultNodeVersion(f.stack)
       case DBChoice => f.dbWanted || f.dbName == ""
       case DBName => TrimSpace(f.dbName) == f.dbName
       case Domain => TrimSpace(f.domain) == f.domain && !f.preflightDone
       case _ => true
  }

  /** What stepping back does after an advance that moved on, in terms of the form before. */
  lemma BackAgain(f: Form, profiles: Profiles, reply: CheckReply)
    requires Inv(f) && !f.step.Review?
    ensures var g := Handle(f, profiles, Enter(reply));
            g.step != f.step ==> StepBack(g) == Settled(f, profiles)
  {
    match f.step
    case Domain => BackFromReview(f, profiles, reply);
    case Profile => BackFromEarly(f, profiles);
    case Stack => BackFromEarly(f, profiles);
    case _ => BackFromDatabase(f, profiles);
  }

  lemma BackFromReview(f: Form, profiles: Profiles, reply: CheckReply)
    requires Inv(f) && f.step.Domain?
    ensures var g := Handle(f, profiles, Enter(reply));
            g.step != f.step ==> StepBack(g) == Settled(f, profiles)
  {
  }

  lemma BackFromEarly(f: Form, profiles: Profiles)
    requires Inv(f) && (f.step.Profile? || f.step.Stack?)
    ensures var (g, async) := Advance(f, profiles);
            !async && !g.step.Domain? && (g.step != f.step ==> StepBack(g) == Settled(f, profiles))
  {
  }

  lemma BackFromDatabase(f: Form, profiles: Profiles)
    requires Inv(f) && !f.step.Profile? && !f.step.Stack? && !f.step.Domain? && !f.step.Review?
    ensures var (g, async) := Advance(f, profiles);
            !async && (g.step != f.step ==> StepBack(g) == Settled(f, profiles))
  {
  }

  lemma SettledIff(f: Form, profiles: Profiles)
    requires f.step.Profile? ==> profiles != []
    ensures Settled(f, profiles) == f <==> AlreadySettled(f, profiles)
  {
  }

  lemma ForthAgainDomain(f: Form, profiles: Profiles, reply: CheckReply)
    requires Inv(f) && f.step.Domain?
    ensures var g := Handle(f, profiles, Enter(reply));
            g.step != f.step ==> Handle(StepBack(g), profiles, Enter(reply)) == g
  {
    TrimIsStable(f.domain);
  }

  lemma ForthAgainName(f: Form, profiles: Profiles)
    requires Inv(f) && f.step.DBName?
    ensures var g := Advance(f, profiles).0; g.step != f.step ==> Advance(StepBack(g), profiles) == (g, false)
  {
    TrimIsStable(f.dbName);
  }

  lemma ForthAgainOther(f: Form, profiles: Profiles)
    requires Inv(f) && !f.step.DBName? && !f.step.Domain? && !f.step.Review?
    ensures var g := Advance(f, profiles).0; g.step != f.step ==> Advance(StepBack(g), profiles) == (g, false)
  {
  }

  lemma ForthAgain(f: Form, profiles: Profiles, reply: CheckReply)
    requires Inv(f) && !f.step.Review?
    ensures var g := Handle(f, profiles, Enter(reply));
            g.step != f.step ==> Handle(StepBack(g), profiles, Enter(reply)) == g
  {
    if f.step.Domain? {
      ForthAgainDomain(f, profiles, reply);
    } else {
      if f.step.DBName? { ForthAgainName(f, profiles); } else { ForthAgainOther(f, profiles); }
      NotAsync(f, profiles, reply);
    }
  }

  /** Away from the domain and the review, Enter is the advance alone. */
  lemma NotAsync(f: Form, profiles: Profiles, reply: CheckReply)
    requires !f.step.Domain? && !f.step.Review?
    ensures Handle(f, profiles, Enter(reply)) == Advance(f, profiles).0
    ensures !Advance(f, profiles).1
  {
  }

  /** On every form reachable by keystrokes, if Enter moves on, stepping back gives the form as it
      was before with the answers of its step settled, so it undoes the advance completely exactly
      when they were settled already; and Enter from there leads to the very same form again.  Only
      the review cannot be left and returned to: from there on the plan is being carried out. */
  lemma StepBackUndoesAdvance(profiles: Profiles, es: seq<Event>, reply: CheckReply)
    ensures var f := Run(New(profiles), profiles, es);
            var g := Handle(f, profiles, Enter(reply));
            g.step != f.step && !f.step.Review? ==>
              && StepBack(g) == Settled(f, profiles)
              && (StepBack(g) == f <==> AlreadySettled(f, profiles))
              && Handle(StepBack(g), profiles, Enter(reply)) == g
  {
    InvNew(profiles);
    InvRun(New(profiles), profiles, es);
    var f := Run(New(profiles), profiles, es);
    if !f.step.Review? && Handle(f, profiles, Enter(reply)).step != f.step {
      BackAgain(f, profiles, reply);
      SettledIff(f, profiles);
      ForthAgain(f, profiles, reply);
    }
  }

  /** A run to a form whose advance is not undone: the wish for a database is forgotten. */
  lemma AdvanceCanForget(reply: CheckReply)
    ensures var f := Run(New(["p"]), ["p"], [Enter(reply), Enter(reply), ChooseYes, ShiftTab]);
            f.step.Stack? && f.dbWanted && StepBack(Handle(f, ["p"], Enter(reply))) == f.(dbWanted := false)
  {
    var f0, es := New(["p"]), [Enter(reply), Enter(reply), ChooseYes, ShiftTab];
    assert es[1..] == [Enter(reply), ChooseYes, ShiftTab] && es[1..][1..] == [ChooseYes, ShiftTab];
    assert es[1..][1..][1..] == [ShiftTab] && es[1..][1..][1..][1..] == [];
    assert STACK_STATIC in SUPPORTED_STACKS;
    var f1 := Handle(f0, ["p"], Enter(reply));
    assert f1 == f0.(step := Stack);
    var f2 := Handle(f1, ["p"], Enter(reply));
    assert f2 == f0.(step := DBChoice);
    var f3 := Handle(f2, ["p"], ChooseYes);
    var f4 := Handle(f3, ["p"], ShiftTab);
    assert f4 == f0.(step := Stack, dbWanted := true);
    assert Run(f4, ["p"], []) == f4;
    assert Run(f3, ["p"], [ShiftTab]) == f4;
    assert Run(f2, ["p"], [ChooseYes, ShiftTab]) == f4;
    assert Run(f1, ["p"], es[1..]) == f4;
  }

  /** On every form reachable by keystrokes, a stack that requires a database has one wanted
      once the stack step is left. */
  lemma RequiredDatabaseIsWanted(profiles: Profiles, es: seq<Event>)
    ensures var f := Run(New(profiles), profiles, es);
            && (PastStack(f.step) && f.stack == "node-express" ==> f.dbWanted)
            && (f.step.DBChoice? ==> f.stack != "node-express")
  {
    InvNew(profiles);
    InvRun(New(profiles), profiles, es);
  }

  // ---------------------------------------------------------------- picking and typing

  /** What the pickers show and what is chosen. */
  datatype Picks = Picks(
    stackCursor: int, stack: string, kindCursor: int, kind: string, profileCursor: int, alias: string)

  function PicksOf(f: Form): Picks {
    Picks(f.stackCursor, f.stack, f.dbKindCursor, f.dbKind, f.profileCursor, f.profileAlias)
  }

  predicate Shows(i: int, choices: seq<string>, chosen: string) { 0 <= i < |choices| && choices[i] == chosen }

  /** The highlighted choice is the chosen one, in each list. */
  predicate Shown(p: Picks, profiles: Profiles) {
    && Shows(p.stackCursor, SUPPORTED_STACKS, p.stack) && Shows(p.kindCursor, SUPPORTED_DB_KINDS, p.kind)
    && (profiles != [] ==> Shows(p.profileCursor, profiles, p.alias))
  }

  lemma ChoicesAre()
    ensures SUPPORTED_STACKS == ["static", "vite-react", "node-express"]
    ensures SUPPORTED_DB_KINDS == ["mysql", "postgresql"]
  {
  }

  /** Only the arrow keys on a picker change what is picked. */
  lemma OthersKeepPicks(f: Form, profiles: Profiles, e: Event)
    requires !e.Cycle? && (e.Enter? ==> f.profileAlias != "" || profiles == [])
    ensures PicksOf(Handle(f, profiles, e)) == PicksOf(f)
  {
    if e.Enter? { AdvanceKeepsPicks(f, profiles); }
  }

  lemma AdvanceKeepsPicks(f: Form, profiles: Profiles)
    requires f.profileAlias != "" || profiles == []
    ensures PicksOf(Advance(f, profiles).0) == PicksOf(f)
  {
    if f.step.Stack? { StackKeepsPicks(f, profiles); } else if f.step.DBKind? { KindKeepsPicks(f, profiles); }
  }

  lemma StackKeepsPicks(f: Form, profiles: Profiles)
    requires f.step.Stack?
    ensures PicksOf(Advance(f, profiles).0) == PicksOf(f)
  {
  }

  lemma KindKeepsPicks(f: Form, profiles: Profiles)
    requires f.step.DBKind?
    ensures PicksOf(Advance(f, profiles).0) == PicksOf(f)
  {
  }

  lemma ShownCycle(f: Form, profiles: Profiles, delta: int)
    requires Shown(PicksOf(f), profiles)
    ensures Shown(PicksOf(CycleSelection(f, profiles, delta)), profiles)
  {
    CyclePicks(f, profiles, delta);
    match f.step
    case Stack => InRange(SUPPORTED_STACKS, (f.stackCursor + delta) % 3);
    case DBKind => InRange(SUPPORTED_DB_KINDS, (f.dbKindCursor + delta) % 2);
    case Profile => if profiles != [] { InRange(profiles, (f.profileCursor + delta) % |profiles|); }
    case _ =>
  }

  lemma InRange(choices: seq<string>, i: int)
    requires 0 <= i < |choices|
    ensures Shows(i, choices, choices[i])
  {
  }

  lemma {:induction false} ShownRun(f: Form, profiles: Profiles, es: seq<Event>)
    requires Shown(PicksOf(f), profiles) && "" !in profiles
    ensures Shown(PicksOf(Run(f, profiles, es)), profiles)
    decreases |es|
  {
    if es != [] {
      if es[0].Cycle? { ShownCycle(f, profiles, es[0].delta); } else { OthersKeepPicks(f, profiles, es[0]); }
      ShownRun(Handle(f, profiles, es[0]), profiles, es[1..]);
    }
  }

  /** Moving the highlight by delta picks the choice delta further on, round the end of the list. */
  lemma CyclePicks(f: Form, profiles: Profiles, delta: int)
    ensures var g := CycleSelection(f, profiles, delta);
            && (f.step.Stack? ==> var i := (f.stackCursor + delta) % 3;
                  g == f.(stackCursor := i, stack := SUPPORTED_STACKS[i]))
            && (f.step.DBKind? ==> var i := (f.dbKindCursor + delta) % 2;
                  g == f.(dbKindCursor := i, dbKind := SUPPORTED_DB_KINDS[i]))
            && (f.step.Profile? && profiles != [] ==> var i := (f.profileCursor + delta) % |profiles|;
                  g == f.(profileCursor := i, profileAlias := profiles[i]))
            && (f.step.DBChoice? ==> g == f.(dbWanted := !f.dbWanted))
            && (!f.step.Stack? && !f.step.DBKind? && !f.step.DBChoice? && !(f.step.Profile? && profiles != []) ==>
                  g == f)
  {
  }

  /** On every form reachable by keystrokes the highlighted choice is the chosen one, so moving the
      highlight and moving it back changes nothing. */
  lemma PickingIsReversible(profiles: Profiles, es: seq<Event>, delta: int)
    requires "" !in profiles
    ensures var f := Run(New(profiles), profiles, es);
            && Shown(PicksOf(f), profiles)
            && (!f.step.DBChoice? ==> CycleSelection(CycleSelection(f, profiles, delta), profiles, -delta) == f)
  {
    var f := Run(New(profiles), profiles, es);
    assert Shown(PicksOf(New(profiles)), profiles);
    ShownRun(New(profiles), profiles, es);
    if !f.step.DBChoice? { ThereAndBack(f, profiles, delta); }
  }

  lemma ThereAndBack(f: Form, profiles: Profiles, delta: int)
    requires Shown(PicksOf(f), profiles) && !f.step.DBChoice?
    ensures CycleSelection(CycleSelection(f, profiles, delta), profiles, -delta) == f
  {
    CyclePicks(f, profiles, delta);
    CyclePicks(CycleSelection(f, profiles, delta), profiles, -delta);
    BackToStart(f.stackCursor, delta, 3);
    BackToStart(f.dbKindCursor, delta, 2);
    if profiles != [] { BackToStart(f.profileCursor, delta, |profiles|); }
  }

  lemma BackToStart(i: int, delta: int, n: int)
    requires 0 <= i < n
    ensures ((i + delta) % n - delta) % n == i
  {
    var q := (i + delta) / n;
    assert (i + delta) % n - delta == n * (0 - q) + i;
    Remainder((i + delta) % n - delta, n, 0 - q, i);
  }

  /** A typed character goes at the end of the field of the step, up to 253 characters of domain and
      32 of database name; backspace takes it off again, and elsewhere nothing happens. */
  lemma TypingAndBackspace(f: Form, c: char)
    ensures var g := AppendInput(f, [c]);
            && (f.step.Domain? ==>
                  g == f.(domain := if |f.domain| < 253 then f.domain + [c] else (f.domain + [c])[..253]))
            && (f.step.DBName? ==>
                  g == f.(dbName := if |f.dbName| < 32 then f.dbName + [c] else (f.dbName + [c])[..32]))
            && (!f.step.Domain? && !f.step.DBName? ==> g == f && BackspaceInput(f) == f)
            && ((f.step.Domain? && |f.domain| < 253) || (f.step.DBName? && |f.dbName| < 32) ==> BackspaceInput(g) == f)
  {
    assert (f.domain + [c])[..|f.domain|] == f.domain;
    assert (f.dbName + [c])[..|f.dbName|] == f.dbName;
  }

  /** Trimming takes off white space at both ends and nothing else. */
  lemma TrimTakesOnlySpace(s: string)
    ensures exists i, j :: && 0 <= i <= j <= |s| && TrimSpace(s) == s[i..j]
                           && (forall k :: 0 <= k < i || j <= k < |s| ==> IsSpace(s[k]))
                           && (i < j ==> !IsSpace(s[i]) && !IsSpace(s[j - 1]))
  {
    var i := TrimLeftAt(s);
    var l := s[i..];
    var j := TrimTailAt(l);
    assert TrimSpace(s) == l[..j] == s[i..i + j];
    assert forall k :: j <= k < |l| ==> l[k] == s[i + k];
    assert forall k :: i + j <= k < |s| ==> s[k] == l[k - i];
  }

  lemma {:induction false} TrimLeftAt(s: string) returns (i: nat)
    ensures i <= |s| && TrimLeft(s) == s[i..]
    ensures (forall k :: 0 <= k < i ==> IsSpace(s[k])) && (i < |s| ==> !IsSpace(s[i]))
  {
    if s != "" && IsSpace(s[0]) {
      var j := TrimLeftAt(s[1..]);
      i := j + 1;
      assert forall k :: 1 <= k < i ==> s[k] == s[1..][k - 1];
    } else {
      i := 0;
    }
  }

  lemma {:induction false} TrimTailAt(s: string) returns (j: nat)
    ensures j <= |s| && TrimTail(s) == s[..j]
    ensures (forall k :: j <= k < |s| ==> IsSpace(s[k])) && (j > 0 ==> !IsSpace(s[j - 1]))
  {
    if s != "" && IsSpace(s[|s| - 1]) {
      j := TrimTailAt(s[..|s| - 1]);
    } else {
      j := |s|;
    }
  }

  /** The answers y and n on the database question, and nowhere else. */
  lemma ChoosingAnswers(f: Form, profiles: Profiles)
    ensures f.step.DBChoice? ==>
              && Handle(f, profiles, ChooseYes) == f.(dbWanted := true)
              && Handle(f, profiles, ChooseNo) == f.(dbWanted := false)
    ensures !f.step.DBChoice? ==> Handle(f, profiles, ChooseYes) == f && Handle(f, profiles, ChooseNo) == f
  {
  }

  /** When Enter is refused, with which message, and where it leads otherwise. */
  lemma EnterGoesTo(f: Form, profiles: Profiles)
    requires Inv(f)
    ensures var (g, async) := Advance(f, profiles);
            match f.step
            case Profile =>
              if profiles == [] then g.step == Profile && g.err == NoProfile else g.step == Stack && g.err == NoError
            case Stack => g.err == NoError && g.step == if f.stack == "node-express" then DBKind else DBChoice
            case DBChoice => g.err == NoError && g.step == if f.dbWanted then DBKind else Domain
            case DBKind => g.err == NoError && g.step == DBName
            case DBName =>
              if TrimSpace(f.dbName) == "" then g.step == DBName && g.err == NameRequired
              else g.step == Domain && g.err == NoError
            case Domain =>
              && g.step == Domain && (async <==> TrimSpace(f.domain) != "")
              && g.err == if async then NoError else DomainRequired
            case Review => g.step == Executing && async && g.executing
            case _ => g == f.(err := NoError) && !async
  {
  }

  /** A stack or database kind that is not offered, which no keys lead to, is refused where it is. */
  lemma UnknownChoicesAreRefused(f: Form, profiles: Profiles)
    ensures f.step.Stack? && f.stack !in ["static", "vite-react", "node-express"] ==>
              Advance(f, profiles) == (f.(err := BadStack), false)
    ensures f.step.DBKind? && f.dbKind !in ["mysql", "postgresql"] ==>
              Advance(f, profiles) == (f.(err := BadDBKind), false)
  {
  }

  /** What the reply to a check does, whatever the form: a failure says so and stays, a free domain
      leads to the review. */
  lemma RepliesAre(f: Form)
    ensures ApplyReply(f, PreflightFailed) == f.(err := PreflightError)
    ensures ApplyReply(f, DomainRefused) == f.(err := DomainTaken, preflightDone := true)
    ensures ApplyReply(f, DomainFree) == f.(err := NoError, preflightDone := true, step := Review)
  {
  }

  /** The form is marked as executing exactly while it is on that step. */
  lemma {:induction false} ExecutingIsMarked(f: Form, profiles: Profiles, es: seq<Event>)
    requires f.executing <==> f.step.Executing?
    ensures Run(f, profiles, es).executing <==> Run(f, profiles, es).step.Executing?
    decreases |es|
  {
    if es != [] {
      MarkedEvent(f, profiles, es[0]);
      ExecutingIsMarked(Handle(f, profiles, es[0]), profiles, es[1..]);
    }
  }

  lemma MarkedEvent(f: Form, profiles: Profiles, e: Event)
    requires f.executing <==> f.step.Executing?
    ensures var g := Handle(f, profiles, e); g.executing <==> g.step.Executing?
  {
    if e.Enter? { MarkedAdvance(f, profiles); }
  }

  lemma MarkedAdvance(f: Form, profiles: Profiles)
    requires f.executing <==> f.step.Executing?
    ensures var g := Advance(f, profiles).0; g.executing <==> g.step.Executing?
  {
  }

  // ------------------------------------------------------------------- the whole plan

  /** Beyond the form's own invariant: the node version is the stack's, the profile is a configured
      one, and a form under review or later has a trimmed domain. */
  ghost predicate Ready(f: Form, profiles: Profiles) {
    && f.nodeVersion == "22"
    && (!f.step.Profile? ==> f.profileAlias in profiles)
    && (f.step.Profile? ==> f.profileAlias == "" || f.profileAlias in profiles)
    && (NameSettled(f.step) && !f.step.Domain? ==> f.domain != "" && TrimSpace(f.domain) == f.domain)
  }

  lemma ReadyAdvance(f: Form, profiles: Profiles)
    requires Inv(f) && Ready(f, profiles)
    ensures Ready(Advance(f, profiles).0, profiles)
    ensures var (g, async) := Advance(f, profiles);
            async && g.step.Domain? ==> g.domain != "" && TrimSpace(g.domain) == g.domain
  {
    TrimIsStable(f.domain);
  }

  lemma ReadyEvent(f: Form, profiles: Profiles, e: Event)
    requires Inv(f) && Ready(f, profiles)
    ensures Ready(Handle(f, profiles, e), profiles)
  {
    match e
    case Enter(reply) => ReadyAdvance(f, profiles);
    case Cycle(delta) =>
    case _ =>
  }

  lemma {:induction false} ReadyRun(f: Form, profiles: Profiles, es: seq<Event>)
    requires Inv(f) && Ready(f, profiles)
    ensures Ready(Run(f, profiles, es), profiles)
    decreases |es|
  {
    if es != [] {
      InvEvent(f, profiles, es[0]);
      ReadyEvent(f, profiles, es[0]);
      ReadyRun(Handle(f, profiles, es[0]), profiles, es[1..]);
    }
  }

  /** After any keystrokes, a form under review yields the plan of its answers, field by field, and
      that plan is valid as soon as the provider accepts its domain, node version and database name. */
  lemma ReviewedPlanIsTheAnswers(profiles: Profiles, es: seq<Event>, v: Validators)
    requires "" !in profiles
    ensures var f := Run(New(profiles), profiles, es);
            f.step.Review? ==>
              && PlanOf(f) == Plan(f.profileAlias, f.stack, f.domain, "22", if f.dbWanted then f.dbKind else "",
                                   if f.dbWanted then TrimSpace(f.dbName) else "")
              && f.profileAlias in profiles
              && (v.domain(f.domain) && v.nodeVersion("22") && (f.dbWanted ==> v.dbName(TrimSpace(f.dbName))) ==>
                    ValidatePlan(PlanOf(f), v))
  {
    InvNew(profiles);
    InvRun(New(profiles), profiles, es);
    ReadyRun(New(profiles), profiles, es);
    var f := Run(New(profiles), profiles, es);
    if f.step.Review? {
      ReviewedPlanIsConsistent(profiles, es);
      assert TrimSpace("22") == "22" by { assert TrimLeft("22") == "22"; }
    }
  }
}
