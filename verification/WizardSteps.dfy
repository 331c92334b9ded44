/** Cleanup steps of wizard/types.go and the check every one of them must pass
    before it is stacked or written (wizard/rollback.go). */
module WizardSteps {
  import opened Wrappers

  datatype Kind =
    | Subdomain | SSL | Database
    | GitHubRepo | GitHubDeployKey | GitHubActionsSecret | GitHubWorkflowFile
    | Unsupported(token: string)

  datatype CleanupStep = CleanupStep(name: string, kind: Kind, params: map<string, string>, createdAt: int)

  datatype StepError = NameMissing | KindUnsupported | SecretInParams | ParamMissing | BadKeyID

  /** The secret-shape pattern; a regular expression in the program, any predicate here. */
  type SecretShape = string -> bool

  function Param(step: CleanupStep, key: string): string {
    if key in step.params then step.params[key] else ""
  }

  predicate HasParams(step: CleanupStep, keys: seq<string>) {
    forall i :: 0 <= i < |keys| ==> Param(step, keys[i]) != ""
  }

  function RequiredParams(kind: Kind): seq<string> {
    match kind
    case Subdomain => ["domain"]
    case SSL => ["domain"]
    case Database => ["dbName", "dbKind"]
    case GitHubRepo => ["owner", "repo"]
    case GitHubDeployKey => ["owner", "repo", "keyID"]
    case GitHubActionsSecret => ["owner", "repo", "name"]
    case GitHubWorkflowFile => ["owner", "repo", "path", "branch"]
    case Unsupported(_) => []
  }

  /** validateStep; None means the step is accepted. */
  function ValidateStep(step: CleanupStep, secret: SecretShape): Option<StepError> {
    if step.name == "" then Some(NameMissing)
    else if step.kind.Unsupported? then Some(KindUnsupported)
    else if exists k :: k in step.params && step.params[k] != "" && secret(step.params[k]) then Some(SecretInParams)
    else if !HasParams(step, RequiredParams(step.kind)) then Some(ParamMissing)
    else if step.kind.GitHubDeployKey? && ParseInt64(Param(step, "keyID")).None? then Some(BadKeyID)
    else None
  }

  predicate Accepted(step: CleanupStep, secret: SecretShape) { ValidateStep(step, secret).None? }

  predicate AllAccepted(steps: seq<CleanupStep>, secret: SecretShape) {
    forall i :: 0 <= i < |steps| ==> Accepted(steps[i], secret)
  }

  // ------------------------------------------------------- what acceptance means

  /** No parameter has the shape of a secret. */
  ghost predicate NoSecrets(step: CleanupStep, secret: SecretShape) {
    forall k :: k in step.params && step.params[k] != "" ==> !secret(step.params[k])
  }

  predicate Given(step: CleanupStep, key: string) { key in step.params && step.params[key] != "" }

  /** Everything the runner of this kind of step reads is given. */
  predicate Complete(step: CleanupStep) {
    match step.kind
    case Subdomain => Given(step, "domain")
    case SSL => Given(step, "domain")
    case Database => Given(step, "dbKind") && Given(step, "dbName")
    case GitHubRepo => Given(step, "owner") && Given(step, "repo")
    case GitHubDeployKey => Given(step, "owner") && Given(step, "repo") && Given(step, "keyID")
    case GitHubActionsSecret => Given(step, "owner") && Given(step, "repo") && Given(step, "name")
    case GitHubWorkflowFile =>
      Given(step, "owner") && Given(step, "repo") && Given(step, "path") && Given(step, "branch")
    case Unsupported(_) => true
  }

  lemma RequiredIsComplete(step: CleanupStep)
    ensures HasParams(step, RequiredParams(step.kind)) <==> Complete(step)
  {
    var keys := RequiredParams(step.kind);
    assert |keys| > 0 ==> (HasParams(step, keys) ==> Param(step, keys[0]) != "");
    assert |keys| > 1 ==> (HasParams(step, keys) ==> Param(step, keys[1]) != "");
    assert |keys| > 2 ==> (HasParams(step, keys) ==> Param(step, keys[2]) != "");
    assert |keys| > 3 ==> (HasParams(step, keys) ==> Param(step, keys[3]) != "");
  }

  /** A step is accepted exactly when it is named, of a supported kind, free of secrets, and has all
      its runner reads, a deploy-key id being a 64-bit decimal. */
  lemma AcceptedIff(step: CleanupStep, secret: SecretShape)
    ensures Accepted(step, secret) <==>
              && step.name != "" && !step.kind.Unsupported? && NoSecrets(step, secret) && Complete(step)
              && (step.kind.GitHubDeployKey? ==> ParseInt64(step.params["keyID"]).Some?)
  {
    RequiredIsComplete(step);
  }

  /** Which error each defect gets, the first one in this order. */
  lemma RejectedFor(step: CleanupStep, secret: SecretShape)
    ensures ValidateStep(step, secret) == Some(NameMissing) <==> step.name == ""
    ensures ValidateStep(step, secret) == Some(KindUnsupported) <==> step.name != "" && step.kind.Unsupported?
    ensures ValidateStep(step, secret) == Some(SecretInParams) <==>
              step.name != "" && !step.kind.Unsupported? && !NoSecrets(step, secret)
    ensures ValidateStep(step, secret) == Some(ParamMissing) <==>
              step.name != "" && !step.kind.Unsupported? && NoSecrets(step, secret) && !Complete(step)
    ensures ValidateStep(step, secret) == Some(BadKeyID) <==>
              && step.name != "" && step.kind.GitHubDeployKey? && NoSecrets(step, secret) && Complete(step)
              && ParseInt64(step.params["keyID"]).None?
  {
    RequiredIsComplete(step);
  }

  /** No accepted list of steps holds a secret. */
  lemma AcceptedHoldNoSecrets(steps: seq<CleanupStep>, secret: SecretShape)
    requires AllAccepted(steps, secret)
    ensures forall i :: 0 <= i < |steps| ==> NoSecrets(steps[i], secret)
  {
    forall i | 0 <= i < |steps| ensures NoSecrets(steps[i], secret) { AcceptedIff(steps[i], secret); }
  }

  // ------------------------------------- strconv.ParseInt / FormatInt, base 10, 64 bits

  const INT64_MIN := -0x8000_0000_0000_0000
  const INT64_MAX := 0x7fff_ffff_ffff_ffff

  predicate IsDigit(c: char) { '0' <= c <= '9' }

  predicate AllDigits(s: string) { forall i :: 0 <= i < |s| ==> IsDigit(s[i]) }

  function DigitsValue(s: string): nat
    requires AllDigits(s)
  {
    if s == "" then 0 else 10 * DigitsValue(s[..|s| - 1]) + (s[|s| - 1] as int - '0' as int)
  }

  function ParseInt64(s: string): Option<int> {
    var negative := s != "" && s[0] == '-';
    var digits := if s != "" && (s[0] == '-' || s[0] == '+') then s[1..] else s;
    if digits == "" || !AllDigits(digits) then None
    else
      var n := if negative then 0 - DigitsValue(digits) else DigitsValue(digits);
      if INT64_MIN <= n <= INT64_MAX then Some(n) else None
  }

  function FormatNat(n: nat): string {
    (if n < 10 then "" else FormatNat(n / 10)) + [('0' as int + n % 10) as char]
  }

  function FormatInt(n: int): string { if n < 0 then "-" + FormatNat(-n) else FormatNat(n) }

  lemma {:induction false} FormatNatReadsBack(n: nat)
    ensures FormatNat(n) != "" && AllDigits(FormatNat(n)) && DigitsValue(FormatNat(n)) == n
  {
    var s := FormatNat(n);
    if n >= 10 {
      FormatNatReadsBack(n / 10);
      assert s[..|s| - 1] == FormatNat(n / 10);
    } else {
      assert s[..|s| - 1] == "";
    }
  }

  /** Every 64-bit deploy-key id survives being written into a step and parsed back. */
  lemma KeyIdRoundTrip(n: int)
    ensures ParseInt64(FormatInt(n))
            == if -9_223_372_036_854_775_808 <= n <= 9_223_372_036_854_775_807 then Some(n) else None
  {
    var m := if n < 0 then -n else n;
    FormatNatReadsBack(m);
    ParseDigits(FormatNat(m), m);
  }

  lemma ParseDigits(s: string, m: int)
    requires s != "" && AllDigits(s) && DigitsValue(s) == m
    ensures m <= INT64_MAX ==> ParseInt64(s) == Some(m)
    ensures m <= INT64_MAX ==> ParseInt64("+" + s) == Some(m)
    ensures INT64_MIN <= 0 - m ==> ParseInt64("-" + s) == Some(0 - m)
  {
    assert IsDigit(s[0]);
    assert ("-" + s)[1..] == s && ("+" + s)[1..] == s;
  }

  /** What ParseInt accepts: an optional sign, then digits and nothing else, within 64 bits. */
  lemma ParseAccepts(s: string)
    ensures ParseInt64(s).Some? ==>
              exists digits :: digits != "" && AllDigits(digits) && s in {digits, "+" + digits, "-" + digits}
                            && ParseInt64(s).value == DigitsValue(digits) * (if s == "-" + digits then -1 else 1)
    ensures ParseInt64(s).Some? ==> INT64_MIN <= ParseInt64(s).value <= INT64_MAX
  {
    if ParseInt64(s).Some? {
      var digits := if s[0] == '-' || s[0] == '+' then s[1..] else s;
      assert s[0] == '-' ==> s == "-" + digits;
      assert s[0] == '+' ==> s == "+" + digits;
      assert IsDigit(digits[0]);
      assert s == digits ==> s[0] != '-';
      assert ("-" + digits)[0] == '-' && ("+" + digits)[0] == '+';
    }
  }
}
