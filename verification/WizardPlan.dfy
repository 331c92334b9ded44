/** The provisioning plan and its cross-field rules (wizard/plan.go). */
module WizardPlan {
  const STACK_STATIC := "static"
  const STACK_VITE_REACT := "vite-react"
  const STACK_NODE_EXPRESS := "node-express"
  const SUPPORTED_STACKS := [STACK_STATIC, STACK_VITE_REACT, STACK_NODE_EXPRESS]

  const DB_MYSQL := "mysql"
  const DB_POSTGRES := "postgresql"
  const SUPPORTED_DB_KINDS := [DB_MYSQL, DB_POSTGRES]

  datatype Plan = Plan(
    profileAlias: string, stack: string, domain: string, nodeVersion: string, dbKind: string, dbName: string)

  /** The adapter's own shape checks, true meaning accepted. */
  datatype Validators = Validators(domain: string -> bool, nodeVersion: string -> bool, dbName: string -> bool)

  predicate IsValidStack(s: string) { s in SUPPORTED_STACKS }

  predicate IsValidDBKind(k: string) { k in SUPPORTED_DB_KINDS }

  predicate IsDBRequired(stack: string) { stack == STACK_NODE_EXPRESS }

  function DefaultNodeVersion(stack: string): string {
    if stack in SUPPORTED_STACKS then "22" else ""
  }

  /** The pairing and kind rules for the database fields alone. */
  predicate DatabaseFieldsOk(p: Plan) {
    (p.dbKind == "" && p.dbName == "") || (p.dbKind != "" && p.dbName != "" && IsValidDBKind(p.dbKind))
  }

  predicate ValidatePlan(p: Plan, v: Validators) {
    && p.profileAlias != ""
    && IsValidStack(p.stack)
    && v.domain(p.domain)
    && p.nodeVersion != ""
    && v.nodeVersion(p.nodeVersion)
    && DatabaseFieldsOk(p)
    && (p.dbName != "" ==> v.dbName(p.dbName))
  }

  /** What a plan must be to be carried out, spelled out. */
  lemma PlanIsValidIff(p: Plan, v: Validators)
    ensures ValidatePlan(p, v) <==>
              && p.profileAlias != "" && p.stack in {"static", "vite-react", "node-express"}
              && v.domain(p.domain) && p.nodeVersion != "" && v.nodeVersion(p.nodeVersion)
              && ((p.dbKind == "" && p.dbName == "")
                  || (p.dbKind in {"mysql", "postgresql"} && p.dbName != "" && v.dbName(p.dbName)))
  {
  }
}
