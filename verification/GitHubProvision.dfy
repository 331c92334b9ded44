/** GitHub-side provisioning with any number of Actions secrets, and its rollback
    (wizard/github_execute.go). */
module GitHubProvision {
  import opened Wrappers
  import opened WizardSteps
  import opened WizardStack
  import opened WizardExecute

  datatype Ref = Ref(owner: string, name: string)

  datatype Repo = Repo(keys: set<int>, secrets: set<string>, files: set<(string, string)>)

  type GitHub = map<Ref, Repo>

  datatype Plan = Plan(
    owner: string, repo: string, branch: string, publicKey: string, workflowPath: string,
    content: seq<bv8>, secrets: map<string, seq<bv8>>)

  /** What GitHub and the machine do during one run.  `pushes(i)` is the i-th Push;
      `initial` are the files a fresh repository starts with. */
  datatype GhEnv = GhEnv(
    createFails: bool, reply: Ref, initial: set<(string, string)>,
    keyFails: bool, keyID: int,
    secretFails: nat -> bool,
    commitFails: bool, dispatchFails: bool,
    pushes: nat -> PushEnv)

  datatype GhExit =
    | PlanInvalid
    | RepoFailed | KeyFailed | SecretFailed(i: nat) | CommitFailed | DispatchFailed
    | PushFailed(stage: nat)
    | Complete

  datatype Provisioned = Provisioned(world: GitHub, store: Store<CleanupStep>, exit: GhExit)

  // ------------------------------------------------------- removals, all strict

  /** The cleanup runner: every removal of something that is not there is an error. */
  function GhRunner(): Runner<GitHub> {
    (step: CleanupStep, g: GitHub) =>
      var ref := Ref(Param(step, "owner"), Param(step, "repo"));
      if ref !in g then (g, true)
      else match step.kind
        case GitHubRepo => (g - {ref}, false)
        case GitHubDeployKey =>
          var id := ParseInt64(Param(step, "keyID"));
          if id.None? || id.value !in g[ref].keys then (g, true)
          else (g[ref := g[ref].(keys := g[ref].keys - {id.value})], false)
        case GitHubActionsSecret =>
          var name := Param(step, "name");
          if name !in g[ref].secrets then (g, true)
          else (g[ref := g[ref].(secrets := g[ref].secrets - {name})], false)
        case GitHubWorkflowFile =>
          var file := (Param(step, "path"), Param(step, "branch"));
          if file !in g[ref].files then (g, true)
          else (g[ref := g[ref].(files := g[ref].files - {file})], false)
        case _ => (g, true)
  }

  // -------------------------------------------------------------- provisioning

  predicate PlanOk(plan: Plan, fieldOk: string -> bool) {
    && (forall f :: f in [plan.owner, plan.repo, plan.branch, plan.publicKey, plan.workflowPath] ==>
          f != "" && fieldOk(f))
    && plan.content != [] && plan.secrets != map[]
  }

  function RefOf(plan: Plan, reply: Ref): Ref {
    Ref(if reply.owner == "" then plan.owner else reply.owner, if reply.name == "" then plan.repo else reply.name)
  }

  function RepoStep(ref: Ref, now: int): CleanupStep {
    CleanupStep("Delete GitHub repo " + ref.owner + "/" + ref.name, GitHubRepo,
                map["owner" := ref.owner, "repo" := ref.name], now)
  }

  function KeyStep(ref: Ref, id: int, now: int): CleanupStep {
    CleanupStep("Remove GitHub deploy key " + FormatInt(id), GitHubDeployKey,
                map["owner" := ref.owner, "repo" := ref.name, "keyID" := FormatInt(id)], now)
  }

  function SecretStep(ref: Ref, name: string, now: int): CleanupStep {
    CleanupStep("Remove GitHub Actions secret " + name, GitHubActionsSecret,
                map["owner" := ref.owner, "repo" := ref.name, "name" := name], now)
  }

  function FileStep(ref: Ref, path: string, branch: string, now: int): CleanupStep {
    CleanupStep("Remove GitHub workflow " + path, GitHubWorkflowFile,
                map["owner" := ref.owner, "repo" := ref.name, "path" := path, "branch" := branch], now)
  }

  /** ExecuteGitHubProvision, with the secret names in the order it walks them. */
  function Provision(
    g: GitHub, s0: Store<CleanupStep>, plan: Plan, names: seq<string>, fieldOk: string -> bool, secret: SecretShape,
    env: GhEnv): Provisioned
  {
    var ref := RefOf(plan, env.reply);
    if !PlanOk(plan, fieldOk) then Provisioned(g, s0, PlanInvalid)
    else if env.createFails || ref in g then Provisioned(g, s0, RepoFailed)
    else
      var g1 := g[ref := Repo({}, {}, env.initial)];
      var (s1, ok1) := TryPush(s0, RepoStep(ref, env.pushes(0).now), env.pushes(0), secret);
      if !ok1 then Provisioned(g1, s1, PushFailed(0))
      else AfterRepo(g1, s1, ref, plan, names, secret, env)
  }

  /** The deploy key, then the rest. */
  function AfterRepo(
    g: GitHub, s: Store<CleanupStep>, ref: Ref, plan: Plan, names: seq<string>, secret: SecretShape, env: GhEnv)
    : Provisioned
    requires ref in g
  {
    if env.keyFails || env.keyID in g[ref].keys then Provisioned(g, s, KeyFailed)
    else
      var g' := g[ref := g[ref].(keys := g[ref].keys + {env.keyID})];
      var (s', ok) := TryPush(s, KeyStep(ref, env.keyID, env.pushes(1).now), env.pushes(1), secret);
      if !ok then Provisioned(g', s', PushFailed(1))
      else AfterKey(g', s', ref, plan, names, secret, env)
  }

  /** The secrets, then the workflow. */
  function AfterKey(
    g: GitHub, s: Store<CleanupStep>, ref: Ref, plan: Plan, names: seq<string>, secret: SecretShape, env: GhEnv)
    : Provisioned
    requires ref in g
  {
    var e := SetSecrets(g, s, ref, names, 0, secret, env);
    if e.exit != Complete then e
    else CommitAndDispatch(e.world, e.store, ref, plan, |names| + 2, secret, env)
  }

  /** The loop over the secrets from index i on. */
  function SetSecrets(
    g: GitHub, s: Store<CleanupStep>, ref: Ref, names: seq<string>, i: nat, secret: SecretShape, env: GhEnv)
    : Provisioned
    requires ref in g && i <= |names|
    ensures SetSecrets(g, s, ref, names, i, secret, env).exit == Complete ==>
              ref in SetSecrets(g, s, ref, names, i, secret, env).world
    decreases |names| - i
  {
    if i == |names| then Provisioned(g, s, Complete)
    else if env.secretFails(i) then Provisioned(g, s, SecretFailed(i))
    else
      var g' := g[ref := g[ref].(secrets := g[ref].secrets + {names[i]})];
      var (s', ok) := TryPush(s, SecretStep(ref, names[i], env.pushes(i + 2).now), env.pushes(i + 2), secret);
      if !ok then Provisioned(g', s', PushFailed(i + 2))
      else SetSecrets(g', s', ref, names, i + 1, secret, env)
  }

  function CommitAndDispatch(
    g: GitHub, s: Store<CleanupStep>, ref: Ref, plan: Plan, stage: nat, secret: SecretShape, env: GhEnv): Provisioned
    requires ref in g
  {
    var file := (plan.workflowPath, plan.branch);
    if env.commitFails || file in g[ref].files then Provisioned(g, s, CommitFailed)
    else
      var g' := g[ref := g[ref].(files := g[ref].files + {file})];
      var (s', ok) := TryPush(s, FileStep(ref, file.0, file.1, env.pushes(stage).now), env.pushes(stage), secret);
      if !ok then Provisioned(g', s', PushFailed(stage))
      else Provisioned(g', s', if env.dispatchFails then DispatchFailed else Complete)
  }

  // --------------------------------------------------------- sortedSecretNames

  /** Byte-wise string order. */
  predicate AtMost(a: string, b: string) {
    a == [] || (b != [] && (a[0] < b[0] || (a[0] == b[0] && AtMost(a[1..], b[1..]))))
  }

  /** The strings agree before position i, and a is smaller there. */
  predicate SmallerAt(a: string, b: string, i: nat) { i < |a| && i < |b| && a[..i] == b[..i] && a[i] < b[i] }

  lemma SmallerLater(a: string, b: string, i: nat)
    requires a != [] && b != [] && a[0] == b[0]
    ensures SmallerAt(a[1..], b[1..], i) <==> SmallerAt(a, b, i + 1)
  {
    if i + 1 <= |a| && i + 1 <= |b| {
      assert a[..i + 1] == [a[0]] + a[1..][..i] && b[..i + 1] == [b[0]] + b[1..][..i];
      assert a[1..][..i] == a[..i + 1][1..] && b[1..][..i] == b[..i + 1][1..];
    }
  }

  /** The order is the lexicographic one: a prefix first, otherwise the first difference decides. */
  lemma {:induction false} AtMostIsLexicographic(a: string, b: string)
    ensures AtMost(a, b) <==> a <= b || exists i :: SmallerAt(a, b, i)
    decreases |a|
  {
    if a != [] && b != [] {
      if a[0] == b[0] {
        AtMostIsLexicographic(a[1..], b[1..]);
        assert a == [a[0]] + a[1..] && b == [b[0]] + b[1..];
        if i: nat :| SmallerAt(a[1..], b[1..], i) { SmallerLater(a, b, i); }
        if i: nat :| SmallerAt(a, b, i) { SmallerLater(a, b, i - 1); }
      } else {
        FirstDecides(a, b);
      }
    }
  }

  lemma FirstDecides(a: string, b: string)
    requires a != [] && b != [] && a[0] != b[0]
    ensures (exists i :: SmallerAt(a, b, i)) <==> a[0] < b[0]
  {
    assert a[..0] == b[..0];
    if a[0] < b[0] { assert SmallerAt(a, b, 0); }
    forall i | i > 0 && i < |a| && i < |b| ensures a[..i] != b[..i] { assert a[..i][0] != b[..i][0]; }
  }

  lemma {:induction false} AtMostIsTotal(a: string, b: string)
    ensures AtMost(a, b) || AtMost(b, a)
  {
    if a != [] && b != [] && a[0] == b[0] { AtMostIsTotal(a[1..], b[1..]); }
  }

  predicate Sorted(names: seq<string>) {
    forall i :: 0 < i < |names| ==> AtMost(names[i - 1], names[i])
  }

  predicate NoRepeats(names: seq<string>) { forall i, j :: 0 <= i < j < |names| ==> names[i] != names[j] }

  method SortedSecretNames(secrets: map<string, seq<bv8>>) returns (names: seq<string>)
    ensures Sorted(names) && NoRepeats(names)
    ensures forall n :: n in names <==> n in secrets
  {
    names := [];
    var todo := secrets.Keys;
    while todo != {}
      invariant todo <= secrets.Keys
      invariant Sorted(names) && NoRepeats(names)
      invariant forall n :: n in names <==> n in secrets && n !in todo
      decreases todo
    {
      var n :| n in todo;
      names := Insert(names, n);
      todo := todo - {n};
    }
  }

  method Insert(names: seq<string>, n: string) returns (r: seq<string>)
    requires Sorted(names) && NoRepeats(names) && n !in names
    ensures Sorted(r) && NoRepeats(r)
    ensures forall x :: x in r <==> x in names || x == n
  {
    var i := 0;
    while i < |names| && !AtMost(n, names[i])
      invariant 0 <= i <= |names|
      invariant i > 0 ==> AtMost(names[i - 1], n)
    {
      AtMostIsTotal(n, names[i]);
      i := i + 1;
    }
    r := InsertAt(names, i, n);
    InsertAtSorted(names, i, n);
    InsertAtMembers(names, i, n);
  }

  function InsertAt(names: seq<string>, i: nat, n: string): seq<string>
    requires i <= |names|
  {
    names[..i] + [n] + names[i..]
  }

  lemma InsertAtSorted(names: seq<string>, i: nat, n: string)
    requires i <= |names| && Sorted(names)
    requires i > 0 ==> AtMost(names[i - 1], n)
    requires i < |names| ==> AtMost(n, names[i])
    ensures Sorted(InsertAt(names, i, n))
  {
    var r := InsertAt(names, i, n);
    forall j | 0 < j < |r| ensures AtMost(r[j - 1], r[j]) {
      if j < i { assert AtMost(names[j - 1], names[j]); }
      if j > i + 1 { assert AtMost(names[j - 2], names[j - 1]); }
    }
  }

  lemma InsertAtMembers(names: seq<string>, i: nat, n: string)
    requires i <= |names| && NoRepeats(names) && n !in names
    ensures NoRepeats(InsertAt(names, i, n))
    ensures forall x :: x in InsertAt(names, i, n) <==> x in names || x == n
  {
    var r := InsertAt(names, i, n);
    assert names == names[..i] + names[i..];
    forall j, k | 0 <= j < k < |r| ensures r[j] != r[k] {
      var a := if j < i then j else j - 1;
      var b := if k < i then k else k - 1;
      assert j != i ==> r[j] == names[a];
      assert k != i ==> r[k] == names[b];
    }
  }

  // ----------------------------------------------------------- as it runs

  method RunProvision(g0: GitHub, stack: Stack, plan: Plan, fieldOk: string -> bool, env: GhEnv)
    returns (g: GitHub, exit: GhExit, names: seq<string>)
    requires stack.Valid()
    modifies stack
    ensures stack.Valid()
    ensures Sorted(names) && NoRepeats(names) && forall n :: n in names <==> n in plan.secrets
    ensures Provisioned(g, stack.View(), exit)
        == Provision(g0, old(stack.View()), plan, names, fieldOk, stack.secret, env)
  {
    g := g0;
    names := SortedSecretNames(plan.secrets);
    if !PlanOk(plan, fieldOk) { exit := PlanInvalid; return; }
    var ref := RefOf(plan, env.reply);
    if env.createFails || ref in g { exit := RepoFailed; return; }
    g := g[ref := Repo({}, {}, env.initial)];
    var r := stack.PushStep(env.pushes(0).cancelled, RepoStep(ref, env.pushes(0).now), env.pushes(0).persist);
    if !r.Pushed? { exit := PushFailed(0); return; }

    if env.keyFails || env.keyID in g[ref].keys { exit := KeyFailed; return; }
    g := g[ref := g[ref].(keys := g[ref].keys + {env.keyID})];
    r := stack.PushStep(env.pushes(1).cancelled, KeyStep(ref, env.keyID, env.pushes(1).now), env.pushes(1).persist);
    if !r.Pushed? { exit := PushFailed(1); return; }

    g, exit := RunSecrets(g, stack, ref, names, env);
    if exit != Complete { return; }
    g, exit := RunCommit(g, stack, ref, plan, |names| + 2, env);
  }

  method RunSecrets(g0: GitHub, stack: Stack, ref: Ref, names: seq<string>, env: GhEnv)
    returns (g: GitHub, exit: GhExit)
    requires stack.Valid() && ref in g0
    modifies stack
    ensures stack.Valid()
    ensures Provisioned(g, stack.View(), exit) == SetSecrets(g0, old(stack.View()), ref, names, 0, stack.secret, env)
  {
    g := g0;
    for i := 0 to |names|
      invariant stack.Valid() && ref in g
      invariant SetSecrets(g, stack.View(), ref, names, i, stack.secret, env)
                == SetSecrets(g0, old(stack.View()), ref, names, 0, stack.secret, env)
    {
      if env.secretFails(i) { exit := SecretFailed(i); return; }
      g := g[ref := g[ref].(secrets := g[ref].secrets + {names[i]})];
      var r := stack.PushStep(env.pushes(i + 2).cancelled, SecretStep(ref, names[i], env.pushes(i + 2).now),
                              env.pushes(i + 2).persist);
      if !r.Pushed? { exit := PushFailed(i + 2); return; }
    }
    exit := Complete;
  }

  method RunCommit(g0: GitHub, stack: Stack, ref: Ref, plan: Plan, stage: nat, env: GhEnv)
    returns (g: GitHub, exit: GhExit)
    requires stack.Valid() && ref in g0
    modifies stack
    ensures stack.Valid()
    ensures Provisioned(g, stack.View(), exit)
        == CommitAndDispatch(g0, old(stack.View()), ref, plan, stage, stack.secret, env)
  {
    g := g0;
    var file := (plan.workflowPath, plan.branch);
    if env.commitFails || file in g[ref].files { exit := CommitFailed; return; }
    g := g[ref := g[ref].(files := g[ref].files + {file})];
    var r := stack.PushStep(env.pushes(stage).cancelled, FileStep(ref, file.0, file.1, env.pushes(stage).now),
                            env.pushes(stage).persist);
    if !r.Pushed? { exit := PushFailed(stage); return; }
    exit := if env.dispatchFails then DispatchFailed else Complete;
  }

  // ------------------------------------------------------------------ rollback

  /** Running the steps newest first never errs and ends in `target`. */
  ghost predicate CleanUnwind(steps: seq<CleanupStep>, g: GitHub, target: GitHub)
    decreases |steps|
  {
    if steps == [] then g == target
    else
      var (g', failed) := GhRunner()(steps[|steps| - 1], g);
      !failed && CleanUnwind(steps[..|steps| - 1], g', target)
  }

  lemma CleanPush(steps: seq<CleanupStep>, x: CleanupStep, g: GitHub, target: GitHub)
    ensures CleanUnwind(steps + [x], g, target)
            <==> !GhRunner()(x, g).1 && CleanUnwind(steps, GhRunner()(x, g).0, target)
  {
    assert (steps + [x])[..|steps|] == steps;
  }

  lemma ParamNamesDiffer()
    ensures "owner" != "repo" && "owner" != "keyID" && "owner" != "name" && "owner" != "path" && "owner" != "branch"
    ensures "repo" != "keyID" && "repo" != "name" && "repo" != "path" && "repo" != "branch" && "path" != "branch"
  {
    assert "owner"[0] != "keyID"[0];
    assert "repo"[0] != "name"[0] && "repo"[0] != "path"[0];
  }

  lemma RepoUndone(g0: GitHub, ref: Ref, repo: Repo, now: int)
    requires ref !in g0
    ensures GhRunner()(RepoStep(ref, now), g0[ref := repo]) == (g0, false)
  {
    ParamNamesDiffer();
    assert Param(RepoStep(ref, now), "owner") == ref.owner && Param(RepoStep(ref, now), "repo") == ref.name;
    assert g0[ref := repo] - {ref} == g0;
  }

  lemma KeyUndone(g0: GitHub, ref: Ref, repo: Repo, id: int, now: int)
    requires INT64_MIN <= id <= INT64_MAX && id !in repo.keys
    ensures GhRunner()(KeyStep(ref, id, now), g0[ref := repo.(keys := repo.keys + {id})]) == (g0[ref := repo], false)
  {
    KeyIdRoundTrip(id);
    KeyStepUndone(g0, ref, repo, id, FormatInt(id), "Remove GitHub deploy key " + FormatInt(id), now);
  }

  lemma KeyStepUndone(g0: GitHub, ref: Ref, repo: Repo, id: int, text: string, name: string, now: int)
    requires ParseInt64(text) == Some(id) && id !in repo.keys
    ensures var step := CleanupStep(name, GitHubDeployKey,
                                    map["owner" := ref.owner, "repo" := ref.name, "keyID" := text], now);
            GhRunner()(step, g0[ref := repo.(keys := repo.keys + {id})]) == (g0[ref := repo], false)
  {
    ParamNamesDiffer();
    var step := CleanupStep(name, GitHubDeployKey, map["owner" := ref.owner, "repo" := ref.name, "keyID" := text], now);
    assert Param(step, "owner") == ref.owner && Param(step, "repo") == ref.name && Param(step, "keyID") == text;
    assert repo.keys + {id} - {id} == repo.keys;
    assert g0[ref := repo.(keys := repo.keys + {id})][ref := repo] == g0[ref := repo];
  }

  lemma SecretUndone(g0: GitHub, ref: Ref, repo: Repo, name: string, now: int)
    requires name !in repo.secrets
    ensures GhRunner()(SecretStep(ref, name, now), g0[ref := repo.(secrets := repo.secrets + {name})])
        == (g0[ref := repo], false)
  {
    ParamNamesDiffer();
    var step := SecretStep(ref, name, now);
    assert Param(step, "owner") == ref.owner && Param(step, "repo") == ref.name && Param(step, "name") == name;
    assert repo.secrets + {name} - {name} == repo.secrets;
    assert g0[ref := repo.(secrets := repo.secrets + {name})][ref := repo] == g0[ref := repo];
  }

  lemma FileUndone(g0: GitHub, ref: Ref, repo: Repo, path: string, branch: string, now: int)
    requires (path, branch) !in repo.files
    ensures GhRunner()(FileStep(ref, path, branch, now), g0[ref := repo.(files := repo.files + {(path, branch)})])
        == (g0[ref := repo], false)
  {
    ParamNamesDiffer();
    var step := FileStep(ref, path, branch, now);
    assert Param(step, "owner") == ref.owner && Param(step, "repo") == ref.name;
    assert Param(step, "path") == path && Param(step, "branch") == branch;
    assert repo.files + {(path, branch)} - {(path, branch)} == repo.files;
    assert g0[ref := repo.(files := repo.files + {(path, branch)})][ref := repo] == g0[ref := repo];
  }

  /** The steps stacked above `below` unwind cleanly to g0. */
  ghost predicate Unwinds(below: seq<CleanupStep>, e: Provisioned, g0: GitHub) {
    UnwindsTo(below, e.store.mem, e.world, g0)
  }

  ghost predicate UnwindsTo(below: seq<CleanupStep>, mem: seq<CleanupStep>, g: GitHub, g0: GitHub) {
    below <= mem && CleanUnwind(mem[|below|..], g, g0)
  }

  lemma UnwindsPush(below: seq<CleanupStep>, e: Provisioned, x: CleanupStep, g': GitHub, disk: seq<CleanupStep>,
                    exit: GhExit, g0: GitHub)
    requires Unwinds(below, e, g0) && GhRunner()(x, g') == (e.world, false)
    ensures Unwinds(below, Provisioned(g', Store(e.store.mem + [x], disk), exit), g0)
  {
    var steps := e.store.mem[|below|..];
    CleanPush(steps, x, g', g0);
    assert (e.store.mem + [x])[|below|..] == steps + [x];
  }

  /** Everything in r is in r'. */
  predicate Within(r: Repo, r': Repo) { r.keys <= r'.keys && r.secrets <= r'.secrets && r.files <= r'.files }

  /** One removal on a repository with more in it: it still finds its target, and either the whole
      repository goes or what is left still has at least what it had. */
  lemma PaddedStep(x: CleanupStep, g: GitHub, ref: Ref, r: Repo) returns (gone: bool, rest: Repo)
    requires ref in g && Within(g[ref], r) && !GhRunner()(x, g).1
    ensures var g1, p := GhRunner()(x, g).0, GhRunner()(x, g[ref := r]);
            && !p.1
            && (gone ==> p.0 == g1)
            && (!gone ==> ref in g1 && Within(g1[ref], rest) && p.0 == g1[ref := rest])
  {
    var at := Ref(Param(x, "owner"), Param(x, "repo"));
    var g1, p := GhRunner()(x, g).0, GhRunner()(x, g[ref := r]);
    gone, rest := false, r;
    if at == ref {
      if x.kind.GitHubRepo? {
        gone := true;
        assert g[ref := r] - {ref} == g - {ref};
      } else {
        rest := p.0[ref];
        assert p.0 == g1[ref := rest];
      }
    } else {
      assert p.0 == g1[ref := r];
    }
  }

  /** An unrecorded item does not stand in the way: the repository's own removal takes it along. */
  lemma {:induction false} PaddedUnwinds(steps: seq<CleanupStep>, g: GitHub, ref: Ref, r: Repo, g0: GitHub)
    requires ref in g && ref !in g0 && Within(g[ref], r) && CleanUnwind(steps, g, g0)
    ensures CleanUnwind(steps, g[ref := r], g0)
    decreases |steps|
  {
    if steps != [] {
      var x := steps[|steps| - 1];
      var gone, rest := PaddedStep(x, g, ref, r);
      if !gone { PaddedUnwinds(steps[..|steps| - 1], GhRunner()(x, g).0, ref, rest, g0); }
    }
  }

  /** A step that adds to the repository and records it, or fails to, leaves a state that unwinds. */
  lemma TriedPushUnwinds(
    below: seq<CleanupStep>, g: GitHub, s: Store<CleanupStep>, ref: Ref, r: Repo, x: CleanupStep, pe: PushEnv,
    secret: SecretShape, exit: GhExit, g0: GitHub)
    requires ref in g && ref !in g0 && Within(g[ref], r) && Unwinds(below, Provisioned(g, s, Complete), g0)
    requires GhRunner()(x, g[ref := r]) == (g, false)
    ensures Unwinds(below, Provisioned(g[ref := r], TryPush(s, x, pe, secret).0, exit), g0)
  {
    var (s', ok) := TryPush(s, x, pe, secret);
    if ok {
      UnwindsPush(below, Provisioned(g, s, Complete), x, g[ref := r], s'.disk, exit, g0);
    } else {
      assert s'.mem == s.mem;
      PaddedUnwinds(s.mem[|below|..], g, ref, r, g0);
    }
  }

  /** From a state that unwinds cleanly, the secrets loop stops, wherever it does, in a state that
      unwinds cleanly. */
  lemma {:induction false} SecretsUnwind(
    g0: GitHub, below: seq<CleanupStep>, g: GitHub, s: Store<CleanupStep>,
    ref: Ref, names: seq<string>, i: nat, secret: SecretShape, env: GhEnv)
    returns (e: Provisioned)
    requires i <= |names| && NoRepeats(names) && ref in g && ref !in g0
    requires AmongFirst(g[ref].secrets, names, i)
    requires UnwindsTo(below, s.mem, g, g0)
    ensures e == SetSecrets(g, s, ref, names, i, secret, env) && UnwindsTo(below, e.store.mem, e.world, g0)
    decreases |names| - i
  {
    if i == |names| || env.secretFails(i) {
      e := Provisioned(g, s, if i == |names| then Complete else SecretFailed(i));
      return;
    }
    OneMoreName(g[ref].secrets, names, i);
    var g', s', ok := OneSecret(g0, below, g, s, ref, names, i, secret, env);
    if ok {
      e := SecretsUnwind(g0, below, g', s', ref, names, i + 1, secret, env);
    } else {
      e := Provisioned(g', s', PushFailed(i + 2));
    }
  }

  /** All that is taken is among the first i names. */
  predicate AmongFirst(taken: set<string>, names: seq<string>, i: nat)
    requires i <= |names|
  {
    forall n :: n in taken ==> n in names[..i]
  }

  lemma OneMoreName(taken: set<string>, names: seq<string>, i: nat)
    requires i < |names| && NoRepeats(names) && AmongFirst(taken, names, i)
    ensures names[i] !in taken && AmongFirst(taken + {names[i]}, names, i + 1)
  {
    assert names[i] !in names[..i];
    assert names[..i + 1] == names[..i] + [names[i]];
  }

  /** One turn of the secrets loop. */
  lemma OneSecret(
    g0: GitHub, below: seq<CleanupStep>, g: GitHub, s: Store<CleanupStep>,
    ref: Ref, names: seq<string>, i: nat, secret: SecretShape, env: GhEnv)
    returns (g': GitHub, s': Store<CleanupStep>, ok: bool)
    requires i < |names| && ref in g && ref !in g0 && names[i] !in g[ref].secrets && !env.secretFails(i)
    requires UnwindsTo(below, s.mem, g, g0)
    ensures ref in g' && g'[ref].secrets == g[ref].secrets + {names[i]}
    ensures SetSecrets(g, s, ref, names, i, secret, env)
            == if ok then SetSecrets(g', s', ref, names, i + 1, secret, env) else Provisioned(g', s', PushFailed(i + 2))
    ensures UnwindsTo(below, s'.mem, g', g0)
  {
    var pe := env.pushes(i + 2);
    g' := Keep(g, ref, names[i]);
    var (t, pushed) := TryPush(s, SecretStep(ref, names[i], pe.now), pe, secret);
    s', ok := t, pushed;
    SecretUnwinds(g0, below, g, s, ref, names[i], pe, secret, Complete);
  }

  /** GitHub with one more secret in the repository. */
  function Keep(g: GitHub, ref: Ref, name: string): GitHub
    requires ref in g
  {
    g[ref := g[ref].(secrets := g[ref].secrets + {name})]
  }

  lemma SecretUnwinds(
    g0: GitHub, below: seq<CleanupStep>, g: GitHub, s: Store<CleanupStep>, ref: Ref, name: string, pe: PushEnv,
    secret: SecretShape, exit: GhExit)
    requires ref in g && ref !in g0 && name !in g[ref].secrets && Unwinds(below, Provisioned(g, s, Complete), g0)
    ensures var s' := TryPush(s, SecretStep(ref, name, pe.now), pe, secret).0;
            Unwinds(below, Provisioned(Keep(g, ref, name), s', exit), g0)
  {
    SecretUndone(g, ref, g[ref], name, pe.now);
    assert g[ref := g[ref]] == g;
    var r := g[ref].(secrets := g[ref].secrets + {name});
    TriedPushUnwinds(below, g, s, ref, r, SecretStep(ref, name, pe.now), pe, secret, exit, g0);
  }

  lemma CommitUnwinds(
    g0: GitHub, below: seq<CleanupStep>, g: GitHub, s: Store<CleanupStep>,
    ref: Ref, plan: Plan, stage: nat, secret: SecretShape, env: GhEnv)
    requires ref in g && ref !in g0 && Unwinds(below, Provisioned(g, s, Complete), g0)
    ensures Unwinds(below, CommitAndDispatch(g, s, ref, plan, stage, secret, env), g0)
  {
    var repo, file := g[ref], (plan.workflowPath, plan.branch);
    if !env.commitFails && file !in repo.files {
      var step := FileStep(ref, file.0, file.1, env.pushes(stage).now);
      FileUndone(g, ref, repo, file.0, file.1, env.pushes(stage).now);
      assert g[ref := repo] == g;
      var e := CommitAndDispatch(g, s, ref, plan, stage, secret, env);
      var more := repo.(files := repo.files + {file});
      TriedPushUnwinds(below, g, s, ref, more, step, env.pushes(stage), secret, e.exit, g0);
    }
  }

  lemma AfterKeyUnwinds(
    g0: GitHub, below: seq<CleanupStep>, g: GitHub, s: Store<CleanupStep>,
    plan: Plan, names: seq<string>, ref: Ref, secret: SecretShape, env: GhEnv)
    requires NoRepeats(names) && ref in g && ref !in g0 && g[ref].secrets == {}
    requires Unwinds(below, Provisioned(g, s, Complete), g0)
    ensures Unwinds(below, AfterKey(g, s, ref, plan, names, secret, env), g0)
  {
    var mid := SecretsUnwind(g0, below, g, s, ref, names, 0, secret, env);
    if mid.exit == Complete {
      CommitUnwinds(g0, below, mid.world, mid.store, ref, plan, |names| + 2, secret, env);
    }
  }

  lemma AfterRepoUnwinds(
    g0: GitHub, below: seq<CleanupStep>, g: GitHub, s: Store<CleanupStep>,
    plan: Plan, names: seq<string>, ref: Ref, secret: SecretShape, env: GhEnv)
    requires NoRepeats(names) && ref in g && ref !in g0 && g[ref].secrets == {} && INT64_MIN <= env.keyID <= INT64_MAX
    requires Unwinds(below, Provisioned(g, s, Complete), g0)
    ensures Unwinds(below, AfterRepo(g, s, ref, plan, names, secret, env), g0)
  {
    if !env.keyFails && env.keyID !in g[ref].keys {
      var k, pe := KeyStep(ref, env.keyID, env.pushes(1).now), env.pushes(1);
      var r := g[ref].(keys := g[ref].keys + {env.keyID});
      KeyUndone(g, ref, g[ref], env.keyID, pe.now);
      assert g[ref := g[ref]] == g;
      TriedPushUnwinds(below, g, s, ref, r, k, pe, secret, PushFailed(1), g0);
      var (s', ok) := TryPush(s, k, pe, secret);
      if ok {
        TriedPushUnwinds(below, g, s, ref, r, k, pe, secret, Complete, g0);
        AfterKeyUnwinds(g0, below, g[ref := r], s', plan, names, ref, secret, env);
      }
    }
  }

  /** The repository's own cleanup is recorded, if there comes to be a repository. */
  predicate RepoRecorded(g0: GitHub, plan: Plan, fieldOk: string -> bool, secret: SecretShape, env: GhEnv) {
    var ref := RefOf(plan, env.reply);
    PlanOk(plan, fieldOk) && !env.createFails && ref !in g0 ==>
      !env.pushes(0).cancelled && Accepted(RepoStep(ref, env.pushes(0).now), secret) && env.pushes(0).persist.Durable?
  }

  /** Wherever provisioning stops, later pushes failing included, the cleanups it pushed, newest
      first, each find what they remove and give back the initial GitHub, if and only if the first
      push, the repository's, goes through. */
  lemma ProvisionUnwindsIff(
    g0: GitHub, s0: Store<CleanupStep>, plan: Plan, names: seq<string>, fieldOk: string -> bool, secret: SecretShape,
    env: GhEnv)
    requires NoRepeats(names) && INT64_MIN <= env.keyID <= INT64_MAX
    ensures Unwinds(s0.mem, Provision(g0, s0, plan, names, fieldOk, secret, env), g0)
            <==> RepoRecorded(g0, plan, fieldOk, secret, env)
  {
    var e, ref := Provision(g0, s0, plan, names, fieldOk, secret, env), RefOf(plan, env.reply);
    var start := Provisioned(g0, s0, Complete);
    assert s0.mem[|s0.mem|..] == [];
    if PlanOk(plan, fieldOk) && !env.createFails && ref !in g0 {
      var repo := Repo({}, {}, env.initial);
      var r := RepoStep(ref, env.pushes(0).now);
      var (s1, ok) := TryPush(s0, r, env.pushes(0), secret);
      if ok {
        RepoUndone(g0, ref, repo, env.pushes(0).now);
        UnwindsPush(s0.mem, start, r, g0[ref := repo], s1.disk, Complete, g0);
        AfterRepoUnwinds(g0, s0.mem, g0[ref := repo], s1, plan, names, ref, secret, env);
      } else {
        assert ref in e.world && e.store.mem == s0.mem;
      }
    }
  }

  /** Through the rollback loop: from an empty stack, an undisturbed rollback after any such stop
      reports no error at all and GitHub is as it was. */
  lemma ProvisionThenRollback(
    g0: GitHub, disk: seq<CleanupStep>, plan: Plan, names: seq<string>, fieldOk: string -> bool, secret: SecretShape,
    env: GhEnv, ticks: nat -> Tick)
    requires NoRepeats(names) && INT64_MIN <= env.keyID <= INT64_MAX && Undisturbed(ticks)
    requires RepoRecorded(g0, plan, fieldOk, secret, env)
    ensures var e := Provision(g0, Store([], disk), plan, names, fieldOk, secret, env);
            var r := RollbackFrom(e.store, e.world, GhRunner(), ticks, 0);
            && r.stop == Finished && r.world == g0
            && |r.results| == |e.store.mem|
            && forall j :: 0 <= j < |r.results| ==> !r.results[j].failed
  {
    var e := Provision(g0, Store([], disk), plan, names, fieldOk, secret, env);
    ProvisionUnwindsIff(g0, Store([], disk), plan, names, fieldOk, secret, env);
    assert e.store.mem[0..] == e.store.mem;
    CleanRollback(e.store, e.world, g0, ticks, 0);
  }

  lemma {:induction false} CleanRollback(s: Store<CleanupStep>, g: GitHub, g0: GitHub, ticks: nat -> Tick, i: nat)
    requires Undisturbed(ticks) && CleanUnwind(s.mem, g, g0)
    ensures var r := RollbackFrom(s, g, GhRunner(), ticks, i);
            && r.stop == Finished && r.world == g0
            && |r.results| == |s.mem|
            && forall j :: 0 <= j < |r.results| ==> !r.results[j].failed
    decreases |s.mem|
  {
    if s.mem != [] {
      var x := s.mem[|s.mem| - 1];
      CleanRollback(Pop(s, Durable), GhRunner()(x, g).0, g0, ticks, i + 1);
    }
  }

  // --------------------------------------------------- what provisioning achieves

  function NameSet(names: seq<string>): set<string> { set n | n in names }

  predicate AllMade(exit: GhExit) { exit == Complete || exit == DispatchFailed }

  /** One turn of the secrets loop, unfolded. */
  lemma SecretTurn(
    g: GitHub, s: Store<CleanupStep>, ref: Ref, names: seq<string>, i: nat, secret: SecretShape, env: GhEnv)
    returns (s': Store<CleanupStep>, ok: bool)
    requires ref in g && i < |names| && !env.secretFails(i)
    ensures SetSecrets(g, s, ref, names, i, secret, env)
            == (if ok then SetSecrets(Keep(g, ref, names[i]), s', ref, names, i + 1, secret, env)
                else Provisioned(Keep(g, ref, names[i]), s', PushFailed(i + 2)))
    ensures ok ==> |s'.mem| == |s.mem| + 1
  {
    var (t, pushed) := TryPush(s, SecretStep(ref, names[i], env.pushes(i + 2).now), env.pushes(i + 2), secret);
    s', ok := t, pushed;
  }

  lemma OneMoreSecret(taken: set<string>, names: seq<string>, i: nat)
    requires i < |names|
    ensures taken + {names[i]} + NameSet(names[i + 1..]) == taken + NameSet(names[i..])
  {
    assert names[i..] == [names[i]] + names[i + 1..];
  }

  lemma {:induction false} SecretsAreSet(
    g: GitHub, s: Store<CleanupStep>, ref: Ref, names: seq<string>, i: nat, secret: SecretShape, env: GhEnv)
    returns (e: Provisioned)
    requires ref in g && i <= |names|
    ensures e == SetSecrets(g, s, ref, names, i, secret, env)
    ensures e.exit != PlanInvalid && e.exit != DispatchFailed
    ensures e.exit == Complete ==>
              && e.world == g[ref := g[ref].(secrets := g[ref].secrets + NameSet(names[i..]))]
              && |e.store.mem| == |s.mem| + |names| - i
    decreases |names| - i
  {
    if i == |names| || env.secretFails(i) {
      e := Provisioned(g, s, if i == |names| then Complete else SecretFailed(i));
      assert i == |names| ==> g[ref].secrets + NameSet(names[i..]) == g[ref].secrets;
      return;
    }
    var s', ok := SecretTurn(g, s, ref, names, i, secret, env);
    if ok {
      e := SecretsAreSet(Keep(g, ref, names[i]), s', ref, names, i + 1, secret, env);
      OneMoreSecret(g[ref].secrets, names, i);
    } else {
      e := Provisioned(Keep(g, ref, names[i]), s', PushFailed(i + 2));
    }
  }

  lemma CommitIsDone(
    g: GitHub, s: Store<CleanupStep>, ref: Ref, plan: Plan, stage: nat, secret: SecretShape, env: GhEnv)
    requires ref in g
    ensures var e := CommitAndDispatch(g, s, ref, plan, stage, secret, env);
            && e.exit != PlanInvalid
            && (AllMade(e.exit) ==>
                  && e.world == g[ref := g[ref].(files := g[ref].files + {(plan.workflowPath, plan.branch)})]
                  && |e.store.mem| == |s.mem| + 1 && (e.exit == DispatchFailed <==> env.dispatchFails))
  {
  }

  lemma AfterKeyIsDone(
    g: GitHub, s: Store<CleanupStep>, ref: Ref, plan: Plan, names: seq<string>, secret: SecretShape, env: GhEnv)
    requires ref in g && g[ref].secrets == {}
    ensures var e := AfterKey(g, s, ref, plan, names, secret, env);
            && e.exit != PlanInvalid
            && (AllMade(e.exit) ==>
                  && e.world == g[ref := Repo(g[ref].keys, NameSet(names),
                                              g[ref].files + {(plan.workflowPath, plan.branch)})]
                  && |e.store.mem| == |s.mem| + |names| + 1 && (e.exit == DispatchFailed <==> env.dispatchFails))
  {
    var mid := SecretsAreSet(g, s, ref, names, 0, secret, env);
    assert names[0..] == names && {} + NameSet(names) == NameSet(names);
    if mid.exit == Complete { CommitIsDone(mid.world, mid.store, ref, plan, |names| + 2, secret, env); }
  }

  lemma AfterRepoIsDone(
    g: GitHub, s: Store<CleanupStep>, ref: Ref, plan: Plan, names: seq<string>, secret: SecretShape, env: GhEnv)
    requires ref in g && g[ref].secrets == {}
    ensures var e := AfterRepo(g, s, ref, plan, names, secret, env);
            && e.exit != PlanInvalid
            && (AllMade(e.exit) ==>
                  && e.world == g[ref := Repo(g[ref].keys + {env.keyID}, NameSet(names),
                                              g[ref].files + {(plan.workflowPath, plan.branch)})]
                  && |e.store.mem| == |s.mem| + |names| + 2 && (e.exit == DispatchFailed <==> env.dispatchFails))
  {
    if !env.keyFails && env.keyID !in g[ref].keys {
      var g' := WithKey(g, ref, env.keyID);
      var s', ok := KeyTurn(g, s, ref, plan, names, secret, env);
      if ok {
        AfterKeyIsDone(g', s', ref, plan, names, secret, env);
        SameRef(g, ref, g'[ref], Repo(g'[ref].keys, NameSet(names), g[ref].files + {(plan.workflowPath, plan.branch)}));
      }
    }
  }

  function WithKey(g: GitHub, ref: Ref, id: int): GitHub
    requires ref in g
  {
    g[ref := g[ref].(keys := g[ref].keys + {id})]
  }

  lemma SameRef(g: GitHub, ref: Ref, a: Repo, b: Repo)
    ensures g[ref := a][ref := b] == g[ref := b]
  {
  }

  /** The deploy key and its cleanup, unfolded. */
  lemma KeyTurn(
    g: GitHub, s: Store<CleanupStep>, ref: Ref, plan: Plan, names: seq<string>, secret: SecretShape, env: GhEnv)
    returns (s': Store<CleanupStep>, ok: bool)
    requires ref in g && !env.keyFails && env.keyID !in g[ref].keys
    ensures AfterRepo(g, s, ref, plan, names, secret, env)
            == (if ok then AfterKey(WithKey(g, ref, env.keyID), s', ref, plan, names, secret, env)
                else Provisioned(WithKey(g, ref, env.keyID), s', PushFailed(1)))
    ensures ok ==> |s'.mem| == |s.mem| + 1
  {
    var (t, pushed) := TryPush(s, KeyStep(ref, env.keyID, env.pushes(1).now), env.pushes(1), secret);
    s', ok := t, pushed;
  }

  /** When provisioning is complete, or only the dispatch failed, the repository the reply names holds
      exactly the deploy key, every secret and the workflow file beside what it started with, nothing
      else on GitHub has changed, and a cleanup for each is stacked. */
  lemma CompleteIsProvisioned(
    g0: GitHub, s0: Store<CleanupStep>, plan: Plan, names: seq<string>, fieldOk: string -> bool, secret: SecretShape,
    env: GhEnv)
    ensures var e := Provision(g0, s0, plan, names, fieldOk, secret, env);
            var ref := Ref(if env.reply.owner != "" then env.reply.owner else plan.owner,
                           if env.reply.name != "" then env.reply.name else plan.repo);
            AllMade(e.exit) ==>
              && ref !in g0
              && e.world == g0[ref := Repo({env.keyID}, NameSet(names),
                                           env.initial + {(plan.workflowPath, plan.branch)})]
              && |e.store.mem| == |s0.mem| + |names| + 3
              && (e.exit == DispatchFailed <==> env.dispatchFails)
  {
    var s1 := RepoMade(g0, s0, plan, names, fieldOk, secret, env);
    FromRepoIsDone(g0, s1, RefOf(plan, env.reply), plan, names, secret, env);
  }

  lemma FromRepoIsDone(
    g0: GitHub, s1: Store<CleanupStep>, ref: Ref, plan: Plan, names: seq<string>, secret: SecretShape, env: GhEnv)
    ensures var e := AfterRepo(g0[ref := Repo({}, {}, env.initial)], s1, ref, plan, names, secret, env);
            AllMade(e.exit) ==>
              && e.world == g0[ref := Repo({env.keyID}, NameSet(names),
                                           env.initial + {(plan.workflowPath, plan.branch)})]
              && |e.store.mem| == |s1.mem| + |names| + 2 && (e.exit == DispatchFailed <==> env.dispatchFails)
  {
    var g1 := g0[ref := Repo({}, {}, env.initial)];
    AfterRepoIsDone(g1, s1, ref, plan, names, secret, env);
    assert {} + {env.keyID} == {env.keyID};
    var done := Repo({env.keyID}, NameSet(names), env.initial + {(plan.workflowPath, plan.branch)});
    assert g1[ref := done] == g0[ref := done];
  }

  lemma RepoMade(
    g0: GitHub, s0: Store<CleanupStep>, plan: Plan, names: seq<string>, fieldOk: string -> bool, secret: SecretShape,
    env: GhEnv)
    returns (s1: Store<CleanupStep>)
    ensures var ref, e := RefOf(plan, env.reply), Provision(g0, s0, plan, names, fieldOk, secret, env);
            AllMade(e.exit) ==>
              && ref !in g0 && |s1.mem| == |s0.mem| + 1
              && e == AfterRepo(g0[ref := Repo({}, {}, env.initial)], s1, ref, plan, names, secret, env)
  {
    var ref := RefOf(plan, env.reply);
    s1 := TryPush(s0, RepoStep(ref, env.pushes(0).now), env.pushes(0), secret).0;
  }

  lemma PlanIsOkIff(plan: Plan, fieldOk: string -> bool)
    ensures PlanOk(plan, fieldOk) <==>
              && plan.owner != "" && fieldOk(plan.owner) && plan.repo != "" && fieldOk(plan.repo)
              && plan.branch != "" && fieldOk(plan.branch) && plan.publicKey != "" && fieldOk(plan.publicKey)
              && plan.workflowPath != "" && fieldOk(plan.workflowPath)
              && plan.content != [] && |plan.secrets| > 0
  {
    var all := [plan.owner, plan.repo, plan.branch, plan.publicKey, plan.workflowPath];
    assert all[0] in all && all[1] in all && all[2] in all && all[3] in all && all[4] in all;
    assert |plan.secrets| == 0 <==> plan.secrets == map[];
  }

  /** A plan is refused, with nothing done, exactly when it is not in order. */
  lemma RefusedIff(
    g0: GitHub, s0: Store<CleanupStep>, plan: Plan, names: seq<string>, fieldOk: string -> bool, secret: SecretShape,
    env: GhEnv)
    ensures var e := Provision(g0, s0, plan, names, fieldOk, secret, env);
            && (e.exit == PlanInvalid <==> !PlanOk(plan, fieldOk))
            && (e.exit == PlanInvalid ==> e.world == g0 && e.store == s0)
  {
    var ref := RefOf(plan, env.reply);
    if PlanOk(plan, fieldOk) && !env.createFails && ref !in g0 {
      var s1 := TryPush(s0, RepoStep(ref, env.pushes(0).now), env.pushes(0), secret).0;
      AfterRepoIsDone(g0[ref := Repo({}, {}, env.initial)], s1, ref, plan, names, secret, env);
    }
  }

  /** A removal reports an error, and changes nothing, exactly when what it names is not there. */
  lemma RemovalsAreStrict(step: CleanupStep, g: GitHub)
    ensures var (g', failed) := GhRunner()(step, g);
            var ref := Ref(Param(step, "owner"), Param(step, "repo"));
            && (failed ==> g' == g)
            && (!failed <==>
                  && ref in g
                  && match step.kind
                     case GitHubRepo => true
                     case GitHubDeployKey =>
                       var id := ParseInt64(Param(step, "keyID"));
                       id.Some? && id.value in g[ref].keys
                     case GitHubActionsSecret => Param(step, "name") in g[ref].secrets
                     case GitHubWorkflowFile => (Param(step, "path"), Param(step, "branch")) in g[ref].files
                     case _ => false)
  {
  }
}
