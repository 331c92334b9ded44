# Webox: verified cores

Webox provisions small web projects from a terminal: it keeps a pool of SSH connections, creates
subdomains, certificates, databases and GitHub repositories through a wizard that can undo what it
did, stores secrets in an encrypted file, caches status probes and migrates its own configuration.
This project models the state machines behind those features in Dafny and proves what they
guarantee. `dafny verify dfyconfig.toml` checks all of it.

| module | what it models |
|---|---|
| `SshPool`, `PoolObject` | the critical sections of the connection pool, as functions and as methods of an object |
| `PoolSystem`, `PoolTheorems` | any number of threads interleaving those sections, and what holds in every reachable state |
| `WizardSteps`, `WizardStack` | cleanup steps, the rollback stack and its snapshot file |
| `WizardRecovery` | pushes, pops, runs, crashes, new wizards and loads of earlier lists, with persists failing before or after the rename |
| `WizardPlan`, `WizardExecute` | plan rules, provisioning over any hosting provider, rollback |
| `CPanel`, `GitHubProvision` | the cPanel adapter's multi-call operations and GitHub provisioning, under the same stack |
| `SecretVault` | the encrypted vault: framing on bytes, symbolic cryptography, rotation |
| `StatusCache` | the stale-while-revalidate cache with single flight and invalidation |
| `RetryBackoff`, `Inflight` | 64-bit backoff arithmetic, jitter and the retry loop, and any number of such calls going through the in-flight limiter |
| `ConfigMigrate` | the migration chain, Save and Load over a directory |
| `ProjectForm`, `FormChecks` | the new-project form, and the same form with checks and executions running in the background |
| `ShellQuote`, `OutputNormalizer` | shell quoting against a POSIX lexer, output clean-up |

State that the source updates in place is a class here. Each method is proved equal to a function on
values, and the theorems are about that function over all runs. Environment choices (clock readings,
call outcomes, cancellations, random bytes) are parameters and range over everything.

## Where code and documentation disagree

The model follows the code.

* ssh/pool.go:116-117 calls a second Release a no-op. It is one exactly when the client is not active
  at that moment (`ReleaseIsNoOpIff`); after a re-acquire it ends with two holders of one client
  (`StaleReleaseGivesTwoHolders`). Ownership is proved for every run whose stray releases are
  harmless, and `StrayKeepsOwnershipIff` says which are.
* ssh/pool.go:257-258 lowers the count of a closed pool without a guard. After Close a host's count is
  minus the number of its dials that landed since (`TotalAfterClose`).
* wizard/rollback.go:107 says every push is recoverable across crashes. wizard/rollback.go:73-75 opens
  a new stack over a pending file without looking at it, so a second wizard's first push loses the
  steps of the first (`NewWizardLosesAStep`); a pop whose persist failed before its rename, followed
  by a push, loses one too (`FailedPopThenPushLosesAStep`). `StepLosesIff` and `NothingLostIff` say
  exactly when something is lost.
* wizard/rollback.go:135-138 says a step is never run twice. tui/update.go:1299-1306 keeps the list
  read at launch after a rollback with errors, and loading it again runs its steps again
  (`SecondResumeRunsAgain`). `LoadIsSafeIff` says which lists are safe to load.
* providers/cpanel/methods.go:34-39 relies on the subdomain cleanup being stacked before
  CreateSubdomain can fail. wizard/execute.go:125-137 stacks it afterwards, so a failed application
  registration leaves the domain entry behind (`FailedAppLeavesTheDomain`). `RollbackRestoresIff`
  says when everything is restored.
* ssh/retry.go:247-263 says the delay is clamped at MaxBackoff, but applies the jitter after the clamp
  (`CapCanBeExceeded`); `CapHoldsIff` says when the cap holds. The conversion of the scaled delay can
  overflow (`FloorCanFail`, `FloorHoldsIff`). For huge policies the wrapped shift can also slip under
  the clamp (`ClampIsExactIff`, `ClampCanMiss`).
* secrets/fallback.go:191-222 restores the old key when a rotation fails. If the failure came after
  the rename, the file already needs the new password (`FailedRotationCanLockOut`,
  `FailedRotationLocksOutIff`).
* status/cache.go:227-239 removes entries but does not stop a fetch that began earlier
  (`InvalidationIsFinalIff`).
* config/migrate.go:39-63 never compares the version it reaches with the current one. The shipped
  registry does not overshoot; one that did would have its output refused (`MigrateCanOvershoot`,
  `IdempotentIff`).
* tui/update.go:1239-1254 applies a domain-check reply whatever step the form is on, and
  tui/update.go:1091-1096 lets Enter start a second check. A late reply can put a form without a
  database name, or one already being executed, under review (`ReplyIsSafeIff`), and start a second
  Execute (`LateReplyStartsASecondExecute`). The profile may change while a check is on its way, and
  the mark that a preflight passed survives the change (tui/wizard.go:337-339), so a review can be
  for a panel that was never asked (`CheckOfAnotherProfile`, `PreflightOfAnotherProfile`).
  `ReplyIsSoundIff` is the exact condition.
* tui/wizard.go:314 calls stepBack a move one step backwards. It does not bring back the answers the
  advance overwrote (`AdvanceCanForget`, `StepBackUndoesAdvance`).

## Model

| member | source | states |
|---|---|---|
| `SshPool.ReapPartitions` | ssh/pool.go:325-346 | reaping keeps exactly the idle entries used within IdleTimeout and expires exactly the others |
| `SshPool.ReapDistinct` | ssh/pool.go:325-346 | on a duplicate-free idle list the kept and the expired clients split its clients, without overlap or repetition |
| `SshPool.ReusedClientIsFresh` | ssh/pool.go:213-229 | a client handed out from idle was last used at most IdleTimeout ago |
| `SshPool.ReleasedIsReusedIff` | ssh/pool.go:118-229 | a released client is what the next Acquire gets back, before any other idle one, exactly up to IdleTimeout after the release |
| `SshPool.ReleaseTakesEffect` | ssh/pool.go:134-152 | the host of a released client afterwards, on an open and on a closed pool, with no other host touched |
| `SshPool.DefaultsFillIn` | ssh/pool.go:348-354 | given limits are kept, missing ones become 3 connections per host and 60 seconds |
| `SshPool.ReleaseIsNoOpIff` | ssh/pool.go:116-137 | Release leaves the pool alone exactly when the host is unknown or the client is not active |
| `PoolObject.ReapHostLocked` | ssh/pool.go:325-346 | the in-place compaction equals the order-preserving filter, with total and notify channel adjusted |
| `PoolObject.ConnectionPool.constructor` | ssh/pool.go:68-78 | a new pool is open, has no hosts, and its options are normalised |
| `PoolObject.ConnectionPool.GetHostLocked` | ssh/pool.go:281-292 | returns the host's record, installing an empty one if there was none, and touches no other host |
| `PoolObject.ConnectionPool.ReserveOrWait` | ssh/pool.go:213-241 | computes the reservation function: reuse the newest idle client, else reserve a dial, else wait on the current channel |
| `PoolObject.ConnectionPool.ReleaseClient` | ssh/pool.go:118-153 | computes the release function, all three outcomes included |
| `PoolObject.ConnectionPool.FinishDial` | ssh/pool.go:255-266 | a finished dial becomes active, or is refused by a closed pool |
| `PoolObject.ConnectionPool.DropReservation` | ssh/pool.go:269-279 | a failed dial gives its slot back and supersedes the channel, when there is a slot to give |
| `PoolObject.ConnectionPool.ReapAll` | ssh/pool.go:311-323 | every host is reaped, in any order, and exactly the expired clients are returned |
| `PoolObject.ConnectionPool.Shutdown` | ssh/pool.go:180-211 | every host is emptied and exactly the clients the pool had are returned; a second Close does nothing |
| `PoolObject.ClientsOf` | ssh/pool.go:191-196 | collects exactly the idle and active clients of a host |
| `PoolSystem.CoreStep` | ssh/pool.go:94-153 | every atomic step of every thread, stray releases included, keeps the pool invariant |
| `PoolTheorems.AccountingHolds` | ssh/pool.go:118-346 | in every reachable open pool, total = idle + active + dials in flight and 0 <= total <= MaxPerHost |
| `PoolTheorems.NoLostWakeup` | ssh/pool.go:94-113 | a parked thread's channel is closed, or its close is owed, or the host is saturated on the current channel |
| `PoolTheorems.ParkedThreadHasAWaker` | ssh/pool.go:94-152 | a parked thread with no wake-up under way waits for another thread that holds or dials a connection of its host |
| `PoolTheorems.FreeingASlotWakesAll` | ssh/pool.go:145-152 | a release or failed dial makes the close of every waiter's channel done or owed |
| `PoolTheorems.OwedCloseWakes` | ssh/pool.go:106-152 | an owed close can be made, lets the waiting thread go on and not before, and it can then ask again |
| `PoolTheorems.ReleasedIntoClosedIsDoomed` | ssh/pool.go:139-152 | a client released into a closed pool is to be closed, one released into an open pool is not, and the close of the channel is owed |
| `PoolTheorems.NoDoubleClose` | ssh/pool.go:145-152 | no notify channel is ever closed twice, which would panic |
| `PoolTheorems.OwnershipRun` | ssh/pool.go:118-267 | every run whose stray releases are harmless keeps ownership and conservation of clients |
| `PoolTheorems.StrayKeepsOwnershipIff` | ssh/pool.go:116-153 | on an open or closed pool, a release nobody owes keeps ownership exactly when its client is not active in a known host, or already closed |
| `PoolTheorems.StaleReleaseGivesTwoHolders` | ssh/pool.go:116-153 | a run from an empty pool in which a second Release ends with two threads holding one client |
| `PoolTheorems.ClientsAreOwnedOnce` | ssh/exec.go:19-23 | in such runs no client has two holders, and each dialed client is in exactly one of idle, active, about to be closed, closed |
| `PoolTheorems.ReusedWasReleasedRecently` | ssh/pool.go:118-229 | over every run, a client Acquire takes from the idle list was last released at most IdleTimeout before |
| `PoolTheorems.ClosedForever` | ssh/pool.go:180-267 | once closed, idle and active stay empty and no Acquire ever succeeds |
| `PoolTheorems.ClosedTotal` | ssh/pool.go:255-279 | on a closed pool a host's count goes down by one for each of its dials that lands and is otherwise unchanged |
| `PoolTheorems.TotalAfterClose` | ssh/pool.go:199-262 | after Close the count is minus the dials landed since, so it is negative exactly when there was one |
| `PoolTheorems.LateDialMakesTotalNegative` | ssh/pool.go:255-262 | a run in which a dial landing after Close drives the count to -1 |
| `WizardSteps.FormatNatReadsBack` | wizard/github_execute.go:91-100 | decimal text of a number is non-empty, all digits, and evaluates back to it |
| `WizardSteps.KeyIdRoundTrip` | wizard/rollback.go:258-281 | a deploy-key id written into a step parses back exactly when it fits in 64 bits |
| `WizardSteps.ParseAccepts` | wizard/rollback.go:316-318 | what parses is an optional sign and digits with that value within 64 bits |
| `WizardSteps.AcceptedIff` | wizard/rollback.go:291-336 | a step is accepted exactly when it is named, of a supported kind, free of secret-shaped parameters, and has every parameter its runner reads, spelled out kind by kind |
| `WizardSteps.RejectedFor` | wizard/rollback.go:291-336 | which error each defect gets, in which order |
| `WizardSteps.AcceptedHoldNoSecrets` | wizard/rollback.go:301-305 | no accepted list of steps holds a secret |
| `WizardStack.Stack.constructor` | wizard/rollback.go:73-75 | a new stack has empty memory over whatever the file holds, and mirrors it exactly if the file's steps validate |
| `WizardStack.Stack.Persist` | wizard/pending_cleanups.go:105-197 | writes a snapshot only if every step validates, so never a secret; a failure may be reported before or after the rename |
| `WizardStack.Stack.PushStep` | wizard/rollback.go:108-133 | error cases, memory undone on failure, steps stay valid, no secret is written, and memory stays a prefix of the file if it was one |
| `WizardStack.Stack.PopStep` | wizard/rollback.go:139-160 | newest step out, memory not undone on failure, same invariant |
| `WizardStack.LoadPending` | wizard/pending_cleanups.go:70-98 | missing, unreadable, malformed, unversioned, newer and invalid files each get their verdict; what loads holds no secret; a file a stack wrote reads back exactly |
| `WizardStack.Stack.LoadSnapshot` | wizard/rollback.go:170-180 | replaces memory exactly when every step validates, so never by a secret, and mirrors the file exactly when the list is a prefix of it |
| `WizardStack.StackHoldsNoSecrets` | wizard/rollback.go:301-305 | no secret is in the memory of a valid stack nor in a file it mirrors |
| `WizardStack.Stack.Rollback` | wizard/rollback.go:191-223 | the loop computes the rollback function, whatever each turn meets |
| `WizardStack.RollbackRunsAll` | wizard/rollback.go:191-223 | undisturbed, every step runs once, newest first, despite errors, and nothing is left in memory or file |
| `WizardStack.RollbackRunsASuffix` | wizard/rollback.go:191-223 | however disturbed, the steps run are a newest-first stretch, and the world is what running them gives |
| `WizardStack.RollbackKeepsThePrefix` | wizard/rollback.go:191-223 | the steps below are kept, less one when a pop's persist failed, and memory stays a prefix of the file |
| `WizardRecovery.StepKeeps` | wizard/rollback.go:73-180 | every event, new wizards and loads of any earlier list included, keeps the ledger consistent |
| `WizardRecovery.AtMostOnce` | wizard/rollback.go:135-180 | over any crashes, new wizards and resumes, if each list is fresh when loaded, every step runs at most once and the file is always fresh to load |
| `WizardRecovery.LoadIsSafeIff` | wizard/rollback.go:170-180 | no continuation runs a step twice exactly when the loaded list has no step twice and none that already ran |
| `WizardRecovery.SecondResumeRunsAgain` | tui/commands.go:418-438 | a run in which the list read at launch is loaded twice and its step runs twice |
| `WizardRecovery.StepLosesIff` | wizard/pending_cleanups.go:66-171 | for each event, the exact condition on the state before it under which nothing is lost |
| `WizardRecovery.NothingLostIff` | wizard/rollback.go:73-180 | over every run, nothing is ever lost exactly when each event meets its condition |
| `WizardRecovery.PrefixKeptIff` | wizard/rollback.go:108-180 | memory stays a prefix of the file, except exactly at a load of something else or a removal under a stack with steps |
| `WizardRecovery.SyncLostIff` | wizard/pending_cleanups.go:151-171 | exactly the events at which memory and file part |
| `WizardRecovery.PromptRunsLoseNothing` | wizard/rollback.go:98-180 | with durable persists, no crash with a step in hand, and every stack over a pending file loading it whole, each pushed step is pending, in hand or run, once |
| `WizardRecovery.NewWizardLosesAStep` | tui/commands.go:234-243 | a run without crash or failure in which a second wizard loses the first one's step, and the run that keeps it |
| `WizardRecovery.FailedPopThenPushLosesAStep` | wizard/rollback.go:139-160 | a run without crash or late failure that loses a step, and the run that recovers it |
| `WizardExecute.RunExecute` | wizard/execute.go:108-174 | Execute against a live stack computes the create-then-push sequence with every failure exit and report |
| `WizardExecute.ExecutePushes` | wizard/execute.go:123-174 | the stack grows by exactly the cleanups of what was created before the exit |
| `WizardExecute.OwnStepsAreAccepted` | wizard/execute.go:130-171 | the cleanups Execute records are refused only for a missing or secret-shaped name of the resource |
| `WizardPlan.PlanIsValidIff` | wizard/plan.go:100-132 | a plan is valid exactly under the listed conditions on its fields |
| `WizardExecute.ExitIs` | wizard/execute.go:108-174 | where Execute stops on the set-valued panel, from plan, panel, faults and pushes alone |
| `WizardExecute.ReportIs` | wizard/execute.go:123-174 | for any provider, the report at every exit, with credentials exactly when a database was created |
| `WizardExecute.DoneIsProvisioned` | wizard/execute.go:123-174 | when Execute is done, exactly the planned subdomain, certificate and database were added and their cleanups are in memory and file |
| `WizardExecute.RunnerRemoves` | wizard/rollback.go:233-286 | the panel runner removes what the step names and reports kinds it does not know |
| `WizardExecute.AllOrNothingRestores` | wizard/execute.go:108-174 | for any all-or-nothing provider and absent resources, stopping anywhere but at a failed Push and rolling back is as if Execute never ran |
| `WizardExecute.AllOrNothingRoundTrip` | wizard/rollback.go:191-223 | the same through the rollback loop: error-free, empty stack, the exact initial state |
| `WizardExecute.SetPanelIsAllOrNothing` | wizard/execute.go:125-174 | the set-valued panel meets the all-or-nothing law |
| `WizardExecute.FailedPushLeavesOneResource` | wizard/execute.go:130-171 | for any such provider whose removals commute, a failed Push leaves exactly what the removal it was to record takes away |
| `WizardExecute.SetPanelCommutes` | wizard/rollback.go:240-286 | the removals of the set-valued panel commute |
| `WizardExecute.RollbackRestores` | wizard/execute.go:108-174 | on the set-valued panel, a failed Push leaves exactly that one resource, every other exit leaves nothing |
| `WizardExecute.ExecuteThenRollback` | wizard/rollback.go:191-223 | the same through the rollback loop, with no step reporting an error |
| `WizardExecute.ResumeRestoresAfterLateFailure` | wizard/pending_cleanups.go:151-156 | if the Push failed after its rename, resuming from the file restores even that resource |
| `CPanel.Account.NewDatabase` | providers/cpanel/methods.go:142-189 | the call sequence with its compensating deletes computes the creation function |
| `CPanel.Account.DropDatabase` | providers/cpanel/methods.go:361-381 | user then database, missing ones counting as removed |
| `CPanel.Account.NewSubdomain` | providers/cpanel/methods.go:40-79 | domain then application, without undoing the domain |
| `CPanel.Account.DropSubdomain` | providers/cpanel/methods.go:325-346 | application then domain |
| `CPanel.DatabaseIsAllOrNothing` | providers/cpanel/methods.go:142-189 | success adds exactly database and user; failure with working compensation changes nothing |
| `CPanel.FailedDatabaseLeavesDebris` | providers/cpanel/methods.go:160-189 | in general a failure leaves exactly what was created and could not be deleted |
| `CPanel.DatabaseErrors` | providers/cpanel/methods.go:142-189 | which failures are invalid input, a taken name, or neither |
| `CPanel.RemovalsAreIdempotent` | providers/cpanel/methods.go:325-381 | removing twice equals removing once, also after a removal that broke off halfway |
| `CPanel.RemovalsAre` | providers/cpanel/methods.go:325-381 | exactly what each removal takes away and reports, broken-off removals included |
| `CPanel.FailedSubdomainLeavesTheDomain` | providers/cpanel/methods.go:40-79 | a failed CreateSubdomain leaves nothing or exactly the new domain entry |
| `CPanel.SubdomainErrors` | providers/cpanel/methods.go:40-79 | which failures are invalid input, a taken domain or path, or neither |
| `CPanel.RollbackLeavesExactly` | providers/cpanel/methods.go:34-79 | for every exit of Execute with cPanel, exactly what remains after rollback |
| `CPanel.ExitIs` | wizard/execute.go:108-174 | where Execute stops, from plan, configuration, faults and pushes alone |
| `CPanel.DoneIsProvisioned` | wizard/execute.go:123-174 | when Execute is done with cPanel, exactly domain, application, certificate, database and user were added |
| `CPanel.RollbackRestoresIff` | providers/cpanel/methods.go:34-189 | rollback restores the panel exactly under a condition on plan, configuration, faults and pushes |
| `CPanel.FailedAppLeavesTheDomain` | providers/cpanel/methods.go:64-79 | whenever only the application registration breaks, nothing is stacked and exactly the domain stays |
| `GitHubProvision.SortedSecretNames` | wizard/github_execute.go:177-184 | the secret names, sorted, each once |
| `GitHubProvision.AtMostIsLexicographic` | wizard/github_execute.go:177-184 | the order of the names is the lexicographic one |
| `GitHubProvision.RunProvision` | wizard/github_execute.go:44-151 | the whole sequence computes the provisioning function over sorted names |
| `GitHubProvision.RunSecrets` | wizard/github_execute.go:104-116 | the loop over the secrets, stopping at any failure |
| `GitHubProvision.RunCommit` | wizard/github_execute.go:118-151 | workflow commit, its cleanup, then dispatch |
| `GitHubProvision.CompleteIsProvisioned` | wizard/github_execute.go:44-151 | when it is complete, or only the dispatch failed, the repository holds exactly the key, every secret and the workflow file beside what it began with, nothing else changed, and each has its cleanup |
| `GitHubProvision.PlanIsOkIff` | wizard/github_execute.go:153-175 | what a plan must have, field by field |
| `GitHubProvision.RefusedIff` | wizard/github_execute.go:44-53 | a plan is refused exactly when it is not in order, with nothing done |
| `GitHubProvision.RemovalsAreStrict` | wizard/rollback.go:240-286 | a removal reports an error and changes nothing exactly when what it names is not there |
| `GitHubProvision.PaddedUnwinds` | wizard/rollback.go:258-281 | items nobody recorded do not stop the cleanups, since removing the repository takes them along |
| `GitHubProvision.ProvisionUnwindsIff` | wizard/github_execute.go:44-151 | wherever it stops, the cleanups in LIFO order each find what they remove and GitHub is as it was, exactly when the repository's own push went through |
| `GitHubProvision.ProvisionThenRollback` | wizard/rollback.go:191-281 | the same through the rollback loop: every result error-free, initial GitHub |
| `SecretVault.FrameParses` | secrets/fallback.go:88-105 | version, salt, nonce and ciphertext parse back exactly from the bytes |
| `SecretVault.BlobLoads` | secrets/fallback.go:88-128 | a written vault opens with its own password to its entries and with no other |
| `SecretVault.FallbackBackend.constructor` | secrets/fallback.go:54-128 | opens the file, starts a fresh vault without one, stays locked on any error |
| `SecretVault.FallbackBackend.PersistLocked` | secrets/fallback.go:227-246 | writes the framed sealed payload, or reports failure before or after the rename |
| `SecretVault.FallbackBackend.GetSecret` | secrets/fallback.go:145-156 | locked, missing or the stored value |
| `SecretVault.FallbackBackend.SetSecret` | secrets/fallback.go:161-169 | the entry is set in memory whatever the write does |
| `SecretVault.FallbackBackend.DeleteSecret` | secrets/fallback.go:174-185 | a missing key is not written at all |
| `SecretVault.FallbackBackend.RotatePassword` | secrets/fallback.go:191-222 | new key and salt on success, old ones restored on failure |
| `SecretVault.FallbackBackend.Lock` | secrets/fallback.go:132-140 | key and entries are dropped, the file stays |
| `SecretVault.GetRefinesPlainMap` | secrets/fallback.go:145-222 | over every run Get is lookup in a plain map, whatever the writes do |
| `SecretVault.GetSurvivesReopening` | secrets/fallback.go:54-222 | over every run with durable writes, closes and reopens included, Get is lookup in a plain map: the password in force shows all of it, any other nothing |
| `SecretVault.ReopenShowsTheFile` | secrets/fallback.go:54-128 | a reopened vault answers exactly from what the file holds under its password, and is locked under any other |
| `SecretVault.LoadVerdicts` | secrets/fallback.go:88-128 | which bytes are too short, of another version, not authentic, and what an opened payload yields |
| `SecretVault.RepliesAreHonest` | secrets/fallback.go:132-222 | what each operation reports, short passwords and locked vaults included |
| `SecretVault.TrackedStep` | secrets/fallback.go:161-246 | each operation keeps the file equal to one recorded view under one recorded key |
| `SecretVault.FileIsAlwaysReadable` | secrets/fallback.go:161-286 | over every run the file opens with exactly one password to a view the vault had, no older than the last durable write |
| `SecretVault.RotationTheorem` | secrets/fallback.go:191-222 | success keeps all entries and only the new password opens; failure keeps key and salt, file untouched or under the new password |
| `SecretVault.FailedRotationLocksOutIff` | secrets/fallback.go:214-222 | after a failed rotation the password in memory opens the file exactly when the failure came before the rename and the file was under that password |
| `SecretVault.FailedRotationCanLockOut` | secrets/fallback.go:191-222 | a run that ends with a file the password in memory does not open |
| `SecretVault.IdealAeadExists` | secrets/fallback.go:227-246 | the assumptions on the sealed box are satisfiable |
| `SecretVault.IdealExists` | secrets/fallback.go:227-246 | so are all the assumptions together, the encoding's included |
| `StatusCache.GettersAgree` | status/cache.go:71-145 | both getters give the same verdict; a hit is fresh exactly when now <= expiresAt, a wrong type and a missing key are told apart, and the age is never negative |
| `StatusCache.Cache.Join` | status/cache.go:174-181 | entering the group starts the only call for a key or joins it |
| `StatusCache.Cache.FetchSucceeded` | status/cache.go:181-195 | the store of a successful fetch is the machine's step and keeps its invariant |
| `StatusCache.Cache.FetchFailed` | status/cache.go:182-185 | a failed fetch leaves every entry alone |
| `StatusCache.Cache.Leave` | status/cache.go:181-195 | when the call is over its key can be fetched again |
| `StatusCache.FetchIsServed` | status/cache.go:71-102 | a fetched value is what lookups then get, fresh for its ttl and stale after; a failure changes no answer, nor does anything for other keys |
| `StatusCache.Cache.Invalidate` | status/cache.go:227-239 | exactly the keys with the prefix go, and they are counted |
| `StatusCache.Cache.InvalidateEach` | status/cache.go:242-248 | the summed counts equal the number of distinct keys matching any prefix |
| `StatusCache.Cache.InvalidateEvent` | status/ttl.go:51-66 | the same for the prefixes an event affects |
| `StatusCache.EventPrefixesAreIncomparable` | status/ttl.go:51-66 | no prefix of an event is a prefix of another one of it |
| `StatusCache.EventDropsIff` | status/ttl.go:51-66 | which family of keys each event invalidates, and that it leaves all others alone |
| `StatusCache.EventCountIsExact` | status/cache.go:242-248 | whatever is stored or removed between the per-prefix sections, the count returned is the number of distinct keys the event removed |
| `StatusCache.InvStep` | status/cache.go:155-201 | each step keeps the single-flight invariant; failures never change entries |
| `StatusCache.LifeOfACall` | status/cache.go:174-201 | a lookup can start a call, its fetch ends it whatever it answers, and afterwards the key can be fetched again |
| `StatusCache.SingleFlight` | status/cache.go:155-201 | over every interleaving at most one call per key, and every entry is a successful fetch of its own key expiring ttl later |
| `StatusCache.ServedUntilInvalidated` | status/cache.go:71-102 | a cached key keeps being served through failing refreshes until a matching invalidation |
| `StatusCache.InvalidationIsFinalIff` | status/cache.go:227-239 | an older result can reappear after an invalidation exactly when a matching fetch is in flight |
| `RetryBackoff.ClampIsExact` | ssh/retry.go:249-253 | if base * max < 2^63 the clamped delay is min(base * 2^attempt, max) for every attempt |
| `RetryBackoff.SmallBoundsSuffice` | ssh/retry.go:249-253 | two bounds below 2^31 meet that condition |
| `RetryBackoff.ClampIsExactIff` | ssh/retry.go:249-253 | for all 64-bit policies, the clamp is exact unless the product wraps to a positive value below the cap |
| `RetryBackoff.ClampCanMiss` | ssh/retry.go:249-253 | a policy and attempt where it does |
| `RetryBackoff.JitterCeiling` | ssh/retry.go:254-263 | whatever an overflowing conversion gives, the delay is at most 6/5 of the clamped one |
| `RetryBackoff.FloorHoldsIff` | ssh/retry.go:254-263 | the delay is never below 4/5 of the clamped one exactly when 6/5 of it fits in 64 bits |
| `RetryBackoff.FloorCanFail` | ssh/retry.go:258-262 | a policy whose delay the conversion destroys |
| `RetryBackoff.CapHoldsIff` | ssh/retry.go:247-263 | no delay exceeds MaxBackoff exactly when 6/5 of the clamped delay stays below MaxBackoff + 1 ns or the cap is the largest duration |
| `RetryBackoff.CapCanBeExceeded` | ssh/retry.go:247-263 | the default bounds, a clamped attempt and a random number that exceed the cap by a tenth |
| `RetryBackoff.DefaultPolicyKeepsItsCap` | ssh/retry.go:139-145 | the default policy's own delays never exceed its cap |
| `RetryBackoff.DefaultsFillIn` | ssh/retry.go:265-282 | given values are kept, missing ones become 3 attempts, 200 ms and 1.2 s |
| `RetryBackoff.AttemptSleeps` | ssh/retry.go:228-240 | the sleep after attempt i is min(base * 2^i, max) within a fifth either way |
| `RetryBackoff.CallSleeps` | ssh/retry.go:209-263 | a whole call sleeps between 4/5 and 6/5 of the sum of its doubling delays, less a nanosecond a sleep |
| `RetryBackoff.DefaultCallSleeps` | ssh/retry.go:134-145 | with the default policy and a busy pool a call sleeps 200 and then 400 ms, within a fifth |
| `Inflight.InflightLimiter.constructor` | ssh/inflight.go:66-78 | the budget is max(8, profiles/2) |
| `Inflight.InflightLimiter.TryAcquire` | ssh/inflight.go:98-119 | a slot is taken exactly if one is free |
| `Inflight.InflightLimiter.Release` | ssh/inflight.go:125-130 | one slot is given back |
| `Inflight.InvStep` | ssh/inflight.go:98-130 | asking, being granted a slot, giving up, an attempt and returning each keep the accounting and every call's progress |
| `Inflight.SlotsAreAccounted` | ssh/inflight.go:66-130 | over every interleaving of any number of calls the semaphore's count is the number of calls between grant and return, never above max(8, profiles/2), and no return underflows it |
| `Inflight.CallsDoNotInterfere` | ssh/retry.go:190-245 | a call that returned has the result it would have alone and never fell through, and when all calls are over every slot is free |
| `Inflight.BlockedCallHasAHolder` | ssh/inflight.go:98-109 | a blocked call can be granted a slot, or all slots are with calls that can go on |
| `RetryBackoff.RunLoop` | ssh/retry.go:209-245 | the loop computes the retry function |
| `RetryBackoff.AttemptCounts` | ssh/retry.go:209-243 | one attempt goes on only when busy and with attempts left, and otherwise ends with counters that agree |
| `RetryBackoff.RetryInvariant` | ssh/retry.go:209-245 | every call before the last was busy, and the counters of the finished loop agree |
| `RetryBackoff.EndingSaysWhy` | ssh/retry.go:209-245 | the ending names the context, the answer or the sleep that caused it, and every attempt before was let through, busy and slept off |
| `RetryBackoff.RetryConservation` | ssh/retry.go:190-263 | calls = successes + busy + terminal <= Attempts, at most one not busy, retries off by at most one, fall-through unreachable, total sleep at most 6/5 (Attempts-1) MaxBackoff |
| `ConfigMigrate.Migrate` | config/migrate.go:22-69 | for every registry the loop ends within current - version migrations with the specified result or error |
| `ConfigMigrate.MigrateOkIff` | config/migrate.go:22-69 | a stale document migrates to `out` exactly when a path of registered, version-increasing migrations leads to it and it validates |
| `ConfigMigrate.IdempotentIff` | config/migrate.go:19-69 | with migrations that claim the version they write, Migrate returns the end of the path from the document, and migrating again changes nothing exactly when that path ends at the current version |
| `ConfigMigrate.MigrateCanOvershoot` | config/migrate.go:39-69 | a registry whose result the next call refuses |
| `ConfigMigrate.MigrateRefuses` | config/migrate.go:22-36 | what Migrate refuses before it tries anything |
| `ConfigMigrate.NewerIsLeftAlone` | config/migrate_v0_to_v1.go:15-23 | the shipped migration hands on a document that is not older |
| `ConfigMigrate.ShippedIsIdempotent` | config/migrate.go:15-69 | with the shipped registry migration is idempotent and ends at the current version |
| `ConfigMigrate.ShippedKeepsLegacy` | config/migrate_v0_to_v1.go:15-49 | version 0 only; profile, projects, settings and language are kept, with the documented defaults; errors are migration failures |
| `ConfigMigrate.LawfulCodecExists` | config/migrate_v0_to_v1.go:42-48 | the assumptions on the codec are satisfiable |
| `ConfigMigrate.ConfigDir.BackupOriginal` | config/load.go:102-123 | a new backup file, whole or cut short, never over an existing one |
| `ConfigMigrate.ConfigDir.Save` | config/save.go:37-109 | validates, then replaces the file, with failure before or after the rename |
| `ConfigMigrate.ConfigDir.Load` | config/load.go:33-88 | the version dispatch with backup and save-back, and every error class |
| `ConfigMigrate.SmoothLoad` | config/load.go:33-88 | with nothing in the way, Load succeeds exactly on files that mean something, and returns that |
| `ConfigMigrate.MissingFileLoadsDefaults` | config/load.go:38-45 | without a file the defaults of this release are returned and nothing is written |
| `ConfigMigrate.LoadErrors` | config/load.go:33-88 | which error class each failing Load reports |
| `ConfigMigrate.StaleErrors` | config/load.go:54-71 | with any registry a stale file that cannot be loaded is a failed migration or corrupted JSON |
| `ConfigMigrate.SaveErrors` | config/save.go:92-109 | a configuration the validator refuses is not written, and the error says whether its content is to blame |
| `ConfigMigrate.SavedMeansItselfIff` | config/save.go:92-109 | a saved configuration loads back as itself exactly when it is at the current version |
| `ConfigMigrate.LoadKeepsTheMeaning` | config/load.go:54-71 | whatever fails, a Load keeps what the file means, returns nothing else, and backs up what it replaces |
| `ConfigMigrate.SecondLoadIsANoOp` | config/load.go:33-88 | after a successful Load another one returns the same configuration and touches nothing |
| `ConfigMigrate.NothingIsLost` | config/load.go:54-123 | over any number of failing Loads the meaning stays and the original bytes are in the file or a backup |
| `ProjectForm.Wrap` | tui/wizard.go:401-409 | the wrapped index is the non-negative remainder and in range |
| `ProjectForm.InvEvent` | tui/wizard.go:252-385 | every key and reply keeps the form consistent |
| `ProjectForm.ReviewedPlanIsConsistent` | tui/wizard.go:234-246 | a form reached by any keys and under review yields a plan passing the database pairing and kind rules |
| `ProjectForm.RequiredDatabaseIsWanted` | tui/wizard.go:252-341 | past the stack step node-express has a database wanted, and is never asked about it |
| `ProjectForm.ReviewedPlanIsTheAnswers` | tui/wizard.go:234-246 | the plan under review is the form's answers, field by field, and valid as soon as the provider accepts domain, node version and database name |
| `ProjectForm.EnterGoesTo` | tui/wizard.go:252-312 | when Enter is refused and with which message, and where it leads otherwise |
| `ProjectForm.UnknownChoicesAreRefused` | tui/wizard.go:265-288 | a stack or database kind that is not offered is refused |
| `ProjectForm.CyclePicks` | tui/wizard.go:367-385 | moving the highlight picks the choice that far on, round the end of the list |
| `ProjectForm.PickingIsReversible` | tui/wizard.go:367-385 | on every reachable form the highlighted choice is the chosen one, and moving away and back changes nothing |
| `ProjectForm.TypingAndBackspace` | tui/wizard.go:344-399 | typed characters go at the end of their field up to its limit, and backspace takes them off |
| `ProjectForm.TrimTakesOnlySpace` | tui/wizard.go:286-300 | trimming takes off white space at both ends and nothing else |
| `ProjectForm.ChoosingAnswers` | tui/update.go:1110-1124 | y and n answer the database question and nothing else |
| `ProjectForm.RepliesAre` | tui/update.go:1229-1254 | what each reply to a check does to the form |
| `ProjectForm.ExecutingIsMarked` | tui/wizard.go:305-309 | a form is marked as executing exactly while it is on that step |
| `ProjectForm.StepBackUndoesAdvance` | tui/wizard.go:315-341 | after an advance, stepping back gives the form before with its answers settled, the very same form exactly when they were settled already, and advancing again repeats the advance |
| `ProjectForm.AdvanceCanForget` | tui/wizard.go:252-341 | a run to a form whose advance is not undone |
| `FormChecks.PromptRunsAreSound` | tui/update.go:1062-1254 | keys and replies in any order: if passing domain checks find the domain step or the review with the profile and domain they checked, of a preflighted profile, every review is consistent, preflighted, checked and unexecuted, and no form starts two Executes |
| `FormChecks.ReplyIsSoundIff` | tui/update.go:1229-1254 | in every state reached so, a passing check leaves a sound review exactly if profile and domain are what it checked, the profile was preflighted, nothing was executed, and no database name is missing |
| `FormChecks.MessagesAre` | tui/update.go:1229-1292 | what each background message does, whatever form it finds |
| `FormChecks.LateReplyStartsASecondExecute` | tui/update.go:1091-1096 | a run after which one late reply and Enter make two Executes run at once |
| `FormChecks.ReplyIsSafeIff` | tui/update.go:1239-1254 | given the profile and domain match, the step alone is a sufficient guard exactly on the domain step and the review; each other step is shown to fail by a run |
| `FormChecks.CheckOfAnotherProfile` | tui/commands.go:217-232 | a run in which a check of one profile's panel puts a form for another profile under review |
| `FormChecks.PreflightOfAnotherProfile` | tui/wizard.go:315-341 | a run with every reply handled at once that reviews a profile which was never preflighted |
| `FormChecks.SteadyRunsArePreflighted` | tui/update.go:1210-1237 | if the profile stays put once a preflight passed, every domain check on its way is of a preflighted profile |
| `ShellQuote.EscapeIsLiteral` | services/sshtail/shellescape.go:11-16 | anywhere in a command line an escaped string adds exactly its own characters to the current word |
| `ShellQuote.EscapedPathIsOneWord` | services/sshtail/shellescape.go:11-32 | on its own it is one word equal to the path, for every string |
| `ShellQuote.EscapedPathIsOneArgument` | services/sshtail/shellescape.go:11-16 | followed by more text it is one argument and the rest is read as before |
| `ShellQuote.ArgumentsSurvive` | services/sshtail/shellescape.go:11-16 | any number of escaped paths with spaces between are read as exactly these arguments |
| `ShellQuote.UpwardPathsAreRefused` | services/sshtail/shellescape.go:22-32 | a path that goes up a directory is refused |
| `ShellQuote.ControlCharactersAreRefused` | services/sshtail/shellescape.go:22-32 | so is an empty one and one with a line end, tab or zero byte |
| `ShellQuote.PlainPathsAreAccepted` | services/sshtail/shellescape.go:22-32 | every other path is accepted |
| `ShellQuote.EscapeIsInjective` | services/sshtail/shellescape.go:11-16 | different paths escape differently |
| `ShellQuote.UnescapedPathIsNotLiteral` | services/sshtail/shellescape.go:22-32 | an accepted path that the shell would expand without the escape |
| `OutputNormalizer.StripAndNormalize` | providers/smallhost/parsers.go:36-54 | too large, first non-printable byte, or the rewritten text, exactly |
| `OutputNormalizer.AcceptedOutputIsAFixedPoint` | providers/smallhost/parsers.go:36-54 | accepted output is no longer than the input, printable, and a fixed point |
| `OutputNormalizer.EscapesAreTakenOut` | providers/smallhost/parsers.go:36-41 | of text with complete escape sequences anywhere in it exactly the text stays |
| `OutputNormalizer.OnlySequencesGo` | providers/smallhost/parsers.go:36-41 | nothing but complete escape sequences is taken out |
| `OutputNormalizer.LineEndsAreUnified` | providers/smallhost/parsers.go:42-43 | each kind of line end becomes one line feed and all other bytes stay |
| `OutputNormalizer.PlainTextIsAccepted` | providers/smallhost/parsers.go:36-54 | up to a mebibyte of printable ASCII, tabs and line feeds is accepted as it is |
| `OutputNormalizer.SplicedEscapeIsRejected` | providers/smallhost/parsers.go:36-54 | deleting one escape sequence can splice another, and such output is rejected |

## Left out

- Keepalive goroutines and Close's wait for them: the keepalive starts after the mutex is released, so full quiescence is not promised by the code.
- A notify channel is identified by host and generation, and closing it by membership in a set; the runtime's scheduling and the select's fairness are not modelled, so nothing is said about starvation.
- WizardStack.Stack.Persist: JSON, temporary file names and permissions are abstracted to "the snapshot is on disk or it is not"; a stack without a persister and concurrent pushes on one stack are not modelled, as the code documents a single wizard.
- The secret-shaped check on step parameters is an arbitrary predicate; its regular expressions are not modelled.
- Removals are taken as succeeding wherever a rollback is said to restore something; a removal that reports an error is only covered by the results Rollback returns.
- CPanel.RollbackLeavesExactly: a panel call that reports an error is taken to have had no effect, except an AutoSSL run whose poll wait is cancelled.
- GitHubProvision.ProvisionThenRollback: the deploy-key id is any 64-bit integer, and deleting a repository is taken to delete all it holds.
- Cryptography is symbolic: key derivation is injective and opening succeeds only for the matching key and nonce. Memory protection, nonce reuse and several processes on one vault are not modelled.
- RetryBackoff.JitterCeiling: computed over the reals and truncated; float64 rounding, which matters for delays beyond 2^53 ns, is not modelled.
- RetryBackoff.FloorHoldsIff: over the reals as well.
- RetryBackoff.CapHoldsIff: over the reals as well.
- The order in which waiting calls get their slots is not modelled. A call without a limiter is the retry loop alone.
- StatusCache.Cache.InvalidateEvent: the method runs its sections back to back; EventCountIsExact covers what lands between them.
- StatusCache.Cache.InvalidateEach: as InvalidateEvent.
- JSON encoding and the JSON Schema are abstract: what is encoded decodes to itself, and validity is an arbitrary predicate. Nil and empty optional collections that JSON omits are identified.
- ProjectForm.ReviewedPlanIsConsistent: the reply to a check is handled before the next key; FormChecks lifts that. Text is a sequence of characters, and white space is the Latin-1 part of the Unicode class.
- Domain, node-version and database-name shape checks of each provider are arbitrary predicates.
- The init wizard form, the rest of the resume screen, TUI rendering, presets, translations, doctor reports, other parsers and the real network, process and API calls.
