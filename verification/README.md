# Verified model of striatum's daemon core

A Dafny 4.11 model of the parts of the striatum daemon that hold state across crashes, concurrent
transactions and chunked input, with proofs of what they keep. `dafny verify dfyconfig.toml` checks
everything.

| part | files |
|---|---|
| Resumable schema deploy: plan, transactions, engine, runs, boot gate, legacy migrations | `DeployPlan`, `DeployDatabase`, `DeployApply`, `DeployEngine`, `DeployInvariant`, `DeployRuns`, `DeployResume`, `DeployStamps`, `DeployVerdict`, `DeployOutcome`, `DeployCoverage`, `DeployServe`, `DeployMisread`, `DeployInterleaving`, `Migrations`, `BootGate`, `BootVerdict` |
| Audit hash chain: encoding, verifier, concurrent appenders | `AuditEncoding`, `AuditChain`, `AuditAppend` |
| Sealed barrier query under SQL's three-valued logic, and its fan-in caller | `Barrier` |
| Streaming terminal-probe responder | `TerminalProbe`, `TerminalAnswers` |
| Tokens and principals | `Principals`, `Tokens`, `TokenVerdicts`, `TokenAuthority` |
| Collaboration ledgers and the discharge gate | `CollaborationLedger` |
| String and path algorithms | `Strings`, `ScopeCheck`, `GitExclude`, `BucketName` |

## How the model reads the code

**Deploy.** Every database transaction is one atomic step on a value `Db`; class `Runner` owns that
value, and `credit` is the number of transactions that still commit, so a crash or a failing
write can fall between any two of them. A failing read ends the process too, with one exception:
`ReadSchemaVersion` takes a failed read of the runtime watermark for version 0
(`go/pkg/db/migrations.go:184-187`), so a process carries whether that read fails (`readFails`). Class `Deployer` and the methods in `DeployEngine`,
`Migrations` and `BootGate` are the code's loops and branches; each is proved equal to a
specification function, and the theorems are about runs of those functions: any number of deploys
(with `--dry-run` and `--abort`) and daemon boots, by any binaries, each with its own crash point.
Every deploy call, whatever its flags, first executes the body of migration 44; `HasSubstrate` says
that the binary embeds that file. `executed` (every execution of a file, and who asked for it) and
`origin` (the runtime stamps found when the cursor's plan was materialized) are history variables;
`Core` is a database without the up-front executions of migration 44. A binary (`ValidBinary`) has
ascending positive versions and frontier constants that name its last migration and last owner bundle;
the repository's tests pin both, and that runtime versions are 1, 2, 3, ... (`Sequential`). Runs start
from any database no deploy has touched (`Undeployed`), whatever its stamps; `ValidEvents` says that
every process runs a valid binary and that its watermark read, if it plans or migrates from it,
succeeds or would have found 0.

In a run processes follow one another. The code does not enforce that: neither `Deployer.Apply` nor its
caller (`go/pkg/cli/localcommands/daemon.go:233`) takes a lock. `DeployInterleaving` lets any number of
processes of one binary interleave their materializations and step transactions.

**Hashes.** Plan hashes, receipt hashes and the schema fingerprint are free constructors. For the
audit chain SHA-256 is an arbitrary function, and the theorems assume no collision only among the
rows of the two chains being compared.

**Audit.** Rows carry all fifteen hashed columns as octets; v2 JSON is an uninterpreted function that
yields objects and tells the rows at hand apart. The appender machine interleaves single statements
of any number of transactions under the head-row lock.

**Characters.** In `TerminalProbe` a character stands for a byte.

## What the proofs found

Where the code and its comments disagree the model follows the code.

- A `complete` cursor is absorbing. The comment at `go/pkg/db/deploy_apply.go:47-50` says a pending change
  would have led to a fresh materialization; the code never gets there. A binary with a newer frontier
  can neither deploy nor serve (`CompleteRerunLeavesPendingWork`, `NewFrontierIsStuck`).
- The comment at `go/pkg/db/deploy.go:493-497` says migration 44 is never a numbered deploy step. From a
  base below 44 it is one, and an uninterrupted deploy runs it twice (`SubstrateRunsTwice`). Every other
  file runs at most once over every run whose watermark reads succeed or find 0 (`ExactlyOnce`).
- A failed watermark read is taken for 0, and the process starts from the very beginning: one binary, two
  boots, the second one's read lost, and its migration runs twice (`MisreadRunsTwice`). A deploy that
  misreads keeps exactly-once iff the history has none of its binary's migrations
  (`MisreadDeployOnceIff`); a boot, iff none comes before the first recorded hash that differs
  (`MisreadBootOnceIff`). A second migration run is a no-op iff its read does not fail (`SecondRunIsNoOp`).
- Overlapping deploys run a file twice unless every step is taken by a process whose place in the plan is
  the first step nobody has committed (`InterleavingOnceIff`, `InterleavedDeploysRunTwice`).
- `--dry-run` on an in-flight cursor deploys for real, and on a database without the deploy tables it
  creates them; `--abort` acts only on an in-flight cursor, before any verification, and otherwise starts
  a fresh deploy (`DryRunMutatesExactlyWhen`, `AbortActsExactlyInFlight`).
- The stamp check halts the authoring binary on its own bytes. The step transaction keeps a stamp that was
  there before it, so a planned version that already carried other bytes fails the check on the next
  resume, and only an abort gets past it (`FalseHalt`, `StaleBaseFalselyHalts`). Without such a stamp the check never halts a
  resume (`NeverHaltsIff`), and an uninterrupted deploy over such a stamp completes and leaves it
  (`CompleteStampsIff`).
- On a `finalizing` cursor the last step's stamp is not checked (`FinalizingIgnoresLastStamp`).
- Abort a revoke-embedding deploy after a bundle above 21 has committed and the revoke is never planned
  again (`AbortLosesRevokeIff`, `AbortLosesRevoke`, `LostRevokeStaysLost`, `DeployRevokesIff`).
- `serve_verify` does not imply that every embedded migration carries the binary's hash. The completed
  plan's files are the serving binary's own, and the stamps its plan found decide the rest
  (`ServeMeansStamped`): two honest binaries are enough for a foreign stamp to be served
  (`TwoBinariesServeForeignStamp`). The legacy boot of the same binary compares every recorded hash and
  refuses (`FinishedDeployServesLegacyIff`, `ForeignStampFailsLegacy`).
- The barrier query does not fail closed on a missing contribution: the NULL is skipped
  (`MissingContributionIsSkipped`, `TrueIsRightIff`). It does block while a superseded staged row is left,
  even after restaging (`AdvancedSealBlocks`). The fan-in caller's sentinel rows repair both
  (`FanInIsExact`).
- Rotation can grow authority from tables in which a grant outlives its client, an expired repository
  grant hides a global one, or an active grant has an expired duplicate, which the ambiguity check does
  not count (`ExpiredDuplicateGrows`); no such table is reachable through create, rotate and revoke
  (`RotationGrowsIff`, `RotationIsExact`).
- The seven bytes the longest probe needs are exactly what the carried tail must hold (`TailBound`);
  the code keeps 8192.
- A relative path is refused for spelling `../` even where it stays inside the repository, as in
  `a/../b`; normalising is idempotent only on results without outer white space (`NormalizedIsWalk`,
  `IdempotentIffTrimmed`). An allow list whose entries are all refused restricts nothing.
- Two binding constraints of a valid ledger may share an id, and one discharge row then settles both
  (`OneRowSettlesTwo`); the gate demands a row for each exactly when no id is shared (`OwnRowIff`).
- Excluding the settings file does not always hide it, and is not always idempotent
  (`go/pkg/agentloop/mcpconfig.go:365-370`): where the last line has no newline the path is glued to that
  line. It hides the file iff it was hidden before or the last line was blank (`HiddenAfterIff`,
  `ExcludeTwiceIff`).
- Exclude then unexclude does not always restore the operator's file "exactly"
  (`go/pkg/agentloop/mcpconfig.go:395-398`): an unterminated last line is lost (`RestoresIff`,
  `AddedThenRemoved`).
- An operator's bucket prefix gives an accepted name for every repository id only if what is left of it
  without leading hyphens has two characters and only letters, digits and single hyphens
  (`PrefixIsValidIff`).

## Model

| member | source | states |
|---|---|---|
| DeployPlan.MaxEmbeddedOwnerVersion | go/pkg/db/deploy.go:268-276 | the largest embedded bundle version, 0 for none |
| DeployPlan.PlanOwnerSteps | go/pkg/db/deploy.go:199-221 | the pending bundles numbered from 0, and the revoke set aside |
| DeployPlan.PlanRuntimeSteps | go/pkg/db/deploy.go:235-248 | the pending migrations numbered on from there |
| DeployPlan.BuildPlan | go/pkg/db/deploy.go:177-266 | the plan built is the specified transcript: owner files above base, then runtime files, then the revoke |
| DeployPlan.OwnerPendingCharacterised | go/pkg/db/deploy.go:199-221 | exactly the non-revoke bundles above base, in order |
| DeployPlan.RuntimePendingCharacterised | go/pkg/db/deploy.go:235-248 | exactly the migrations above base, in order |
| DeployPlan.BuiltPlanIsWellFormed | go/pkg/db/deploy.go:177-266 | indices equal positions, owner steps precede runtime steps, versions ascend, the revoke is last |
| DeployPlan.StepsAreDistinct | go/pkg/db/deploy.go:177-266 | no plan names a file twice |
| DeployPlan.PlanCoverage | go/pkg/db/deploy.go:199-260 | an embedded file is planned iff it lies above its role's base; for the revoke iff 21 exceeds the MAX owner watermark |
| DeployDatabase.MaxVersion | go/pkg/db/owner.go:365-385 | the watermark read is the largest recorded version, 0 for none |
| DeployDatabase.Runner.OwnerBundleVersion | go/pkg/db/owner.go:365-385 | reads the MAX owner watermark |
| DeployDatabase.Runner.ReadSchemaVersion | go/pkg/db/migrations.go:184-194 | the watermark, or 0 when the read fails |
| DeployDatabase.Runner.CreateDeployTables | go/pkg/db/deploy.go:498-507 | one execution of migration 44 and no stamp, or nothing |
| DeployDatabase.Runner.MaterializePlan | go/pkg/db/deploy_apply.go:283-321 | one transaction: the plan stored once, the cursor at in_progress, or nothing |
| DeployDatabase.Runner.CommitStep | go/pkg/db/deploy_apply.go:164-245 | one transaction: DDL, stamp, cursor and chained receipt together, or nothing |
| DeployDatabase.Runner.WriteCursor | go/pkg/db/deploy_apply.go:323-331 | one cursor write, or nothing |
| DeployDatabase.Runner.RecordFingerprint | go/pkg/db/schema_drift.go:171-198 | one fingerprint write, or nothing |
| DeployDatabase.Runner.ApplyOne | go/pkg/db/migrations.go:308-359 | one transaction: DDL and both stamps, rolled back when the recorded hash disagrees |
| DeployVerdict.StepWrites | go/pkg/db/deploy_apply.go:179-245 | every column the step transaction leaves |
| DeployVerdict.MigrationWrites | go/pkg/db/migrations.go:308-359 | every column a boot migration leaves |
| DeployVerdict.MaterializeWrites | go/pkg/db/deploy_apply.go:283-321 | every column materialization leaves |
| DeployEngine.FindFile | go/pkg/db/deploy.go:311-319 | the first embedded file of a name |
| DeployEngine.ResolveFile | go/pkg/db/deploy.go:298-333 | the embedded file a step names, by role |
| DeployEngine.VerifyStoredTranscript | go/pkg/db/deploy.go:335-356 | refuses at the first stored step whose bytes are missing or differ |
| DeployEngine.VerifyAppliedDBStamps | go/pkg/db/deploy.go:363-382 | refuses at the first committed step whose stamp differs |
| DeployEngine.Deployer.Finalize | go/pkg/db/deploy_apply.go:247-271 | re-verify, finalizing, fingerprint, complete, dying at any of the writes |
| DeployEngine.Deployer.RunFrom | go/pkg/db/deploy_apply.go:143-162 | the step loop with its threaded receipt hash and applied list |
| DeployEngine.Deployer.MaterializeAndRun | go/pkg/db/deploy_apply.go:77-97 | a fresh plan from the watermarks as read, stored and run; a dry run stops before storing |
| DeployEngine.Deployer.Resume | go/pkg/db/deploy_apply.go:99-131 | abort, transcript check, stamp check, then the remaining steps |
| DeployEngine.Deployer.EnsureDeploySubstrate | go/pkg/db/deploy.go:498-507 | the deploy tables are created by executing the embedded file, or the call fails and changes nothing |
| DeployEngine.Deployer.Apply | go/pkg/db/deploy_apply.go:36-68 | the substrate and then the dispatch; state and verdict equal the specification's |
| DeployEngine.Deployer.Dispatch | go/pkg/db/deploy_apply.go:40-68 | the cursor dispatch; state and verdict equal the specification's |
| DeployVerdict.ResolvesExactly | go/pkg/db/deploy.go:298-333 | a step names the migration or bundle of that file name, or the staged bundle where no bundle has it |
| DeployVerdict.TranscriptVerdict | go/pkg/db/deploy.go:335-356 | the transcript check reports the first stored step whose bytes are not embedded |
| DeployVerdict.StampVerdict | go/pkg/db/deploy.go:363-382 | the stamp check reports the first committed step without its own hash |
| DeployVerdict.RunVerdict | go/pkg/db/deploy_apply.go:143-271 | a run of steps adds the plan's lines to the history in order, as far as it gets, and ends complete with their indices or dies |
| DeployVerdict.ApplyVerdict | go/pkg/db/deploy_apply.go:36-131 | the verdict on every deploy from every reachable state, with any flags, dying anywhere, over cursor, stored plans and history |
| DeployVerdict.ReportedIsDone | go/pkg/db/deploy_apply.go:36-131 | what aborted, none and complete each mean, who is resumed, and that the indices reported are those of the steps added to the history |
| DeployInvariant.SameHashSamePlan | go/pkg/db/deploy.go:278-296 | two well-formed plans with one hash are one plan |
| DeployInvariant.InFlightFacts | go/pkg/db/deploy_apply.go:133-141 | in flight, the executed count is what committedThrough computes |
| DeployInvariant.StepKeepsInv | go/pkg/db/deploy_apply.go:179-245 | the step transaction keeps the whole invariant and moves the plan on by one step |
| DeployInvariant.MaterializedIsAtZero | go/pkg/db/deploy_apply.go:283-321 | materialization, also of a plan stored before, starts at step 0 |
| DeployInvariant.SubstrateKeepsInv | go/pkg/db/deploy.go:498-507 | the up-front execution of migration 44 keeps the invariant and every plan's log |
| DeployInvariant.MigrationKeepsInv | go/pkg/db/migrations.go:308-359 | the legacy transaction keeps the invariant when no deploy is in flight |
| DeployRuns.TranscriptErrorIff | go/pkg/db/deploy.go:335-356 | the check passes iff every stored step resolves to embedded bytes of its own hash |
| DeployRuns.OwnPlanMatches | go/pkg/db/deploy.go:335-356 | a binary never refuses the plan it built |
| DeployRuns.ApplyKeepsInv | go/pkg/db/deploy_apply.go:36-162 | every deploy, however it ends, keeps the invariant |
| DeployRuns.BootKeepsInv | go/pkg/db/connection.go:333-465 | every boot, however it ends, keeps the invariant |
| DeployRuns.TrueReadIsRead | go/pkg/db/migrations.go:184-194 | a failed watermark read that finds 0, or that is never made, changes nothing |
| DeployRuns.RunKeepsInv | go/pkg/db/deploy_apply.go:36-162 | so does every run of deploys and boots by any binaries that read the true watermark, from any stamps |
| DeployRuns.ExactlyOnce | go/pkg/db/deploy_apply.go:36-178 | over every run whose watermark reads succeed or find 0 a file runs at most once as a step or boot migration; migration 44 runs once more for every deploy that gets under way, no other file does |
| DeployMisread.MisreadDeployOnceIff | go/pkg/db/deploy_apply.go:77-97 | a deploy whose watermark read fails keeps exactly-once, wherever it dies, iff none of its binary's migrations is in the history |
| DeployMisread.MisreadBootOnceIff | go/pkg/db/migrations.go:125-182 | a legacy boot whose watermark read fails keeps exactly-once, wherever it dies, iff no file of the history comes before the first recorded hash that differs |
| DeployMisread.MisreadRunsTwice | go/pkg/db/migrations.go:184-187 | a boot, and then a boot or a deploy whose read fails: migration 44 runs twice under its number |
| DeployRuns.PlanRunsItsPrefix | go/pkg/db/deploy_apply.go:133-178 | over every run a plan in progress has executed exactly its first committedThrough steps in order, a finalizing or complete one all |
| DeployRuns.RunKeepsTables | go/pkg/db/deploy.go:493-507 | over every run a cursor, plan or receipt row exists only where the deploy tables do |
| DeployRuns.ReceiptChain | go/pkg/db/deploy_apply.go:223-239 | receipts are exactly the executed indices, each recomputes, each prev is the preceding row hash, the first empty |
| DeployRuns.ResumePoint | go/pkg/db/deploy_apply.go:333-340 | the receipt hash a resume reads is the one its prefix determines |
| DeployRuns.CompleteReachesTarget | go/pkg/db/deploy_apply.go:250-271 | complete means the runtime watermark has reached the plan's target |
| DeployRuns.CompleteBootAppliesNothing | go/pkg/db/connection.go:368-413 | over complete no boot by any binary changes the database; a legacy serve reports the watermark |
| DeployResume.StampsPassIff | go/pkg/db/deploy.go:363-382 | in every reachable state a resume gets past the stamp check iff no step below the count found a stamp of other bytes at materialization |
| DeployResume.DeployCompletesIff | go/pkg/db/deploy_apply.go:36-162 | in every reachable state a deploy with enough transactions reports complete iff the binary agrees with the stored bytes and the stamps pass; then it is at the destination, else only migration 44 has run |
| DeployResume.CrashKeepsDestination | go/pkg/db/deploy_apply.go:99-162 | a deploy dying after any number of transactions is headed for the same final state |
| DeployResume.InterruptedEqualsUninterrupted | go/pkg/db/deploy_apply.go:99-271 | over stamps the plan can use, after any crashes, the attempt that finishes reports complete and leaves the uninterrupted deploy's database, up to the up-front runs of migration 44 |
| DeployStamps.NeverHaltsIff | go/pkg/db/deploy.go:363-382 | over every abort-free run by any binaries the stamp check never halts a resume of a freshly materialized plan iff no planned runtime version carried other bytes then |
| DeployStamps.CompleteStampsIff | go/pkg/db/deploy_apply.go:198-218 | complete leaves a planned version its own hash iff it found none or the same one, so all of them iff no stamp was stale |
| DeployStamps.FalseHalt | go/pkg/db/migrations.go:342-351 | over a stale stamp a deploy that dies after that step is stuck: every later deploy of the authoring binary reports a stamp mismatch and applies nothing |
| DeployStamps.FailedCheckSticks | go/pkg/db/deploy_apply.go:115-125 | once the check fails no abort-free run by any binaries takes a step or clears it |
| DeployOutcome.AbortActsExactlyInFlight | go/pkg/db/deploy_apply.go:109-114 | what abort does, in flight and otherwise |
| DeployOutcome.DryRunMutatesExactlyWhen | go/pkg/db/deploy_apply.go:36-131 | an uninterrupted dry run changes the tables iff the deploy tables are absent or it resumes a deploy in flight |
| DeployOutcome.ForeignBinaryAppliesNothing | go/pkg/db/deploy_apply.go:115-119 | bytes that disagree with any stored step: nothing but the substrate is executed, the verdict is a mismatch |
| DeployOutcome.FinalizingIgnoresLastStamp | go/pkg/db/deploy_apply.go:136-141 | at finalizing, the last step's stamp has no influence on what any deploy reports |
| DeployOutcome.StepCommittedChecksEveryStamp | go/pkg/db/deploy.go:363-382 | any wrong stamp below the committed count is reported |
| DeployOutcome.CompleteRerunLeavesPendingWork | go/pkg/db/deploy_apply.go:45-60 | re-running over complete reports success, and leaves work through any run of deploys and boots iff the binary embeds a file above a watermark |
| DeployOutcome.FreshPlanEmptyIff | go/pkg/db/deploy.go:177-266 | a fresh plan is empty iff no embedded file lies above its watermark |
| DeployOutcome.NewFrontierIsStuck | go/pkg/db/deploy_activation.go:171-194 | a binary of another frontier can neither deploy nor serve over complete, after any run of deploys and boots |
| DeployOutcome.LostRevokeStaysLost | go/pkg/db/deploy.go:250-260 | once a bundle above 21 is applied without the revoke, no later run applies it |
| DeployOutcome.AbortLosesRevoke | go/pkg/db/deploy_apply.go:109-114 | a deploy interrupted after its ordinary bundles and aborted loses the revoke |
| DeployOutcome.AbortLosesRevokeIff | go/pkg/db/deploy_apply.go:109-114 | an abort loses the revoke iff a bundle above 21 is committed and the revoke is not |
| DeployOutcome.DeployRevokesIff | go/pkg/db/deploy.go:250-260 | the completed deploy of a revoke-embedding binary leaves 21 applied iff no bundle at or above it was, or it was itself |
| DeployOutcome.FreshDeployEnd | go/pkg/db/deploy_apply.go:77-97 | what an uninterrupted fresh deploy leaves behind |
| DeployOutcome.FinishedDeployServes | go/pkg/db/deploy_activation.go:61-106 | the decoupled boot after a finished deploy serves, without writing, exactly when the fingerprint table exists and no foreign revoke is applied |
| DeployOutcome.FinishedDeployServesLegacyIff | go/pkg/db/connection.go:406-465 | the legacy boot after a finished deploy serves iff nothing refuses it earlier and every embedded migration agrees with its recorded hash; a disagreement is a hash mismatch |
| DeployOutcome.SubstrateRunsTwice | go/pkg/db/deploy.go:493-507 | from a base below 44 an uninterrupted deploy executes migration 44 twice |
| DeployCoverage.RunKeepsCovered | go/pkg/db/deploy.go:177-266 | runs by one binary keep coverage between the watermarks |
| DeployCoverage.CoveredBetweenWatermarks | go/pkg/db/deploy.go:177-266 | every embedded migration and ordinary bundle between the original and the current watermark has executed |
| DeployCoverage.CompleteCoversEverything | go/pkg/db/deploy_apply.go:45-97 | over any deploys, crashes, aborts and redeploys by one binary, complete means all of it has executed once; a bundle is stamped with its hash, a migration iff the base had no other stamp there |
| DeployServe.ServeMeansStamped | go/pkg/db/deploy_activation.go:61-106 | over any run by any binaries, a serving gate over complete: the plan's runtime steps are the binary's own files, and an embedded migration carries its hash iff the plan has it and found its stamp or none, or lacks it and found its stamp |
| DeployServe.PlannedIffAboveBase | go/pkg/db/deploy_activation.go:171-194 | with runtime versions numbered 1, 2, 3, ... the plan has exactly the binary's migrations above its base |
| DeployServe.OriginIsPast | go/pkg/db/deploy_apply.go:77-97 | the stamps the plan found are those before the deploy, earlier in the run, that built it |
| DeployServe.ForeignStampIsServed | go/pkg/db/deploy_activation.go:128-154 | a stamp of other bytes at or below the watermark survives a finished deploy, and the gate serves |
| DeployServe.ForeignStampFailsLegacy | go/pkg/db/migrations.go:165-171 | the same stamp, unless empty, makes the binary's own legacy boot fail with a hash mismatch |
| DeployServe.TwoBinariesServeForeignStamp | go/pkg/db/deploy_activation.go:128-154 | an old binary's boot and a new one's deploy reach that state, with no file of either at or below the first watermark |
| DeployServe.StaleBaseFalselyHalts | go/pkg/db/migrations.go:342-351 | a base with one stale stamp above its watermark on which the authoring binary gets stuck |
| DeployInterleaving.InterleavingOnceIff | go/pkg/db/deploy_apply.go:77-162 | over any interleaving of any number of deploy processes of one binary no file runs twice iff every step is taken at the first uncommitted step |
| DeployInterleaving.InterleavedDeploysRunTwice | go/pkg/db/deploy_apply.go:77-97 | two deploy processes that materialize the same plan before either takes a step execute its first file twice |
| Migrations.Migrate | go/pkg/db/migrations.go:125-194 | the apply loop equals its specification, state and verdict, from the watermark as read |
| BootVerdict.MigrateRefusedIff | go/pkg/db/migrations.go:142-164 | refused as newer iff the watermark is above every embedded migration, and else for a failed preflight |
| BootVerdict.PendingVerdict | go/pkg/db/migrations.go:165-178 | with enough transactions it succeeds iff no embedded file disagrees with its recorded hash, and else stops at the first that does |
| BootVerdict.PendingRuns | go/pkg/db/migrations.go:165-178 | a successful run ran exactly the files above the watermark it read, in order, and returns the version it ended at |
| BootVerdict.PendingKeepsFingerprint | go/pkg/db/migrations.go:308-359 | migrations leave a recorded fingerprint alone |
| Migrations.MigrationRestart | go/pkg/db/migrations.go:125-182 | crash anywhere, from any database, then rerun: state and verdict of one uninterrupted run |
| Migrations.MigrationRestartMany | go/pkg/db/migrations.go:125-182 | the same for any number of crashes |
| Migrations.SecondRunIsNoOp | go/pkg/db/migrations.go:165-194 | after a successful run another changes nothing iff its watermark read does not fail, it writes nothing at all, or there is nothing embedded |
| Migrations.StampsFromEmpty | go/pkg/db/migrations.go:278-359 | from an empty database the stamps are exactly the embedded versions up to the watermark, with their hashes |
| Migrations.StampsGrow | go/pkg/db/migrations.go:278-359 | stamps are only added, above the watermark, from embedded files |
| Migrations.NothingPending | go/pkg/db/migrations.go:165-171 | files at or below the watermark are checked, never applied |
| Migrations.SuccessReachesLast | go/pkg/db/migrations.go:125-182 | success means the watermark is at least every embedded version |
| BootGate.RevokeBundleEmbedded | go/pkg/db/owner.go:94-107 | whether bundle 21 is embedded |
| BootGate.CheckDeployActivation | go/pkg/db/deploy_activation.go:128-154 | the decision on the inputs read from the database |
| BootGate.ConnectAndMigrate | go/pkg/db/connection.go:333-465 | the fixed gate sequence with its early exits, state and verdict |
| BootVerdict.AwaitsOwnerDdlIff | go/pkg/db/owner.go:208-242 | awaiting owner DDL at v, with nothing written, iff v is the greatest applied bundle and some embedded bundle is greater |
| BootVerdict.GateVerdict | go/pkg/db/connection.go:364-413 | past the interlock: the revoke barrier, the configuration halt, the two ways to serve, and awaiting a deploy otherwise |
| BootVerdict.LegacyVerdict | go/pkg/db/connection.go:414-465 | a failed run is reported, a foreign fingerprint refuses iff drift is enforced, and otherwise the own fingerprint is recorded and the boot serves |
| BootGate.GateServesExactlyWhen | go/pkg/db/deploy_activation.go:56-106 | both serving decisions characterised; in flight or aborted the gate never serves |
| BootGate.RefusedBootWritesNothing | go/pkg/db/connection.go:368-413 | no write without serve_legacy; a decoupled boot never writes |
| AuditEncoding.Buffer.EncText | go/pkg/db/audit.go:82-98 | appends one length-prefixed field, null as `-1:` |
| AuditEncoding.Buffer.EncInt | go/pkg/db/audit.go:102-122 | appends the decimal text of an integer as such a field |
| AuditEncoding.V3RowBytes | go/pkg/db/audit.go:58-76 | writes the bytes that decode to this row |
| AuditEncoding.EncodedInOrder | go/pkg/db/audit.go:58-76 | the fifteen columns in declared order |
| AuditEncoding.FieldBytes | go/pkg/db/audit.go:79-122 | the bytes of a null, an empty text, a longer text and an integer of either sign |
| AuditEncoding.DigitsRoundTrip | go/pkg/db/audit.go:95-97 | decimal rendering is digits only and reads back |
| AuditEncoding.AtoiInvertsItoa | go/pkg/db/audit.go:107-118 | signed decimals read back |
| AuditEncoding.DecodeFieldInverts | go/pkg/db/audit.go:82-98 | a field followed by anything decodes to itself and the rest, whatever digits and colons it holds |
| AuditEncoding.DecodeFieldsInverts | go/pkg/db/audit.go:58-76 | so does any list of fields |
| AuditEncoding.RowDecodesIffEncoded | go/pkg/db/audit.go:51-57 | bytes decode to a row iff they are its encoding |
| AuditEncoding.EncodingIsInjective | go/pkg/db/audit.go:51-57 | two typed rows with one encoding are equal |
| AuditChain.RowHashForFormat | go/pkg/db/audit.go:127-136 | format 2 hashes the JSON material, format 3 the bytes that decode to the row, and every other is an error |
| AuditChain.VerifyRows | go/pkg/db/audit.go:425-450 | no problem iff every row names the hash of the row before it and is sealed by its own format; otherwise one problem, about the first bad row, link before hash |
| AuditChain.FirstProblemIsUnique | go/pkg/db/audit.go:425-450 | the report is determined by the rows |
| AuditChain.PrefixVerifies | go/pkg/db/audit.go:425-450 | cutting rows off the end leaves a chain that verifies |
| AuditChain.SamePreimageSameRow | go/pkg/db/audit.go:127-136 | equal digests mean equal rows, across the two formats as well |
| AuditChain.SameHeadSameChain | go/pkg/db/audit.go:425-450 | two verified chains ending in one hash agree in length, all hashed fields and all hashes |
| AuditChain.VerifiesIffUntampered | go/pkg/db/audit.go:425-450 | against a good chain of the same last hash, rows verify iff only audit ids differ |
| AuditChain.RowHashesAreDistinct | go/pkg/db/audit.go:425-450 | no hash is the predecessor of two rows of a verified chain |
| AuditAppend.BuiltChainVerifies | go/pkg/db/audit.go:308-423 | sequential appends of either format verify |
| AuditAppend.AuditStore.AppendAuditRow | go/pkg/db/audit.go:308-423 | appends one row that records the entry column by column, linked and sealed, and moves the head; or fails iff that row's hash is taken, and changes no row |
| AuditAppend.StepKeepsInv | go/pkg/db/audit.go:308-423 | every statement of every transaction keeps the chain invariant and removes no committed row |
| AuditAppend.NoForks | go/pkg/db/audit.go:158-166 | over every interleaving committed rows verify, the head is the last hash, ids ascend, no predecessor is used twice |
| AuditAppend.Serializable | go/pkg/db/sql/owner/0001_authority_phase0.sql:148-218 | committed rows are the sequential append of the committed entries; later commits only extend them |
| AuditAppend.CommittedRowsRecord | go/pkg/db/audit.go:352-400 | over every interleaving each committed row records its entry column by column, linked to the row before it and sealed |
| AuditAppend.CommittedInsertIsKept | go/pkg/db/audit.go:402-423 | what a transaction inserted is recorded once it commits, and stays |
| AuditAppend.RolledBackInsertIsLost | go/pkg/db/audit.go:308-423 | what a transaction inserted and rolled back is never recorded |
| AuditAppend.CommittedWasInserted | go/pkg/db/audit.go:308-423 | nothing is committed that was not inserted by a transaction that committed afterwards |
| AuditAppend.LoneTransactionAppends | go/pkg/db/audit.go:308-423 | wherever no lock is held, one transaction on its own appends the row its entry asks for, unless its hash is taken |
| Barrier.BoolAndMeaning | go/pkg/db/barrier_predicate.go:82-130 | bool_and is FALSE iff some input is FALSE, TRUE iff some is TRUE and none FALSE |
| Barrier.ReadyExactly | go/pkg/db/barrier_predicate.go:82-130 | the query's value read off the three tables |
| Barrier.ReadyInTheTables | go/pkg/db/barrier_predicate.go:99-110 | the same in the columns of the three tables, NULL included |
| Barrier.OtherEdgesHaveNoSay | go/pkg/db/barrier_predicate.go:99-110 | edges of other barriers and kinds, their order and their repetition do not change the answer |
| Barrier.TwoBarriers | go/pkg/db/barrier_predicate.go:99-110 | a stale contribution to one barrier does not hold back another of the same kind |
| Barrier.TrueIsRightIff | go/pkg/db/barrier_predicate.go:82-110 | a TRUE answer meets the documented rule iff every non-gap in-edge has a live and a staged row |
| Barrier.ReadyBarrierFiresIff | go/pkg/db/barrier_predicate.go:82-110 | a barrier the rule would fire does fire iff no superseded staged row is left and some in-edge has a live row |
| Barrier.CompleteTablesAgree | go/pkg/db/barrier_predicate.go:82-110 | with one live and one staged row per in-edge, query and rule agree and NULL never occurs |
| Barrier.MissingContributionIsSkipped | go/pkg/db/barrier_predicate.go:67-71 | a missing staged row is skipped: TRUE while the rule is false |
| Barrier.AdvancedSealBlocks | go/pkg/db/barrier_predicate.go:14-25 | a live seal past a staged one makes the query FALSE, and staging more does not help while the old row stays |
| Barrier.FanInIsExact | go/pkg/mutations/barrier_fanin.go:107-205 | with the caller's sentinel rows the query is TRUE iff every declared seat is a gap or staged at its last completed attempt |
| Barrier.MaxCompletedIsLast | go/pkg/mutations/barrier_fanin.go:107-205 | the live row carries the last completed attempt of the seat |
| Barrier.MaxStagedIsLast | go/pkg/mutations/barrier_fanin.go:107-205 | the staged row carries the last attempt among the seat's live contributions |
| Barrier.IsBareSQLIdentifier | go/pkg/db/barrier_predicate.go:159-185 | accepts exactly the position-wise grammar |
| Barrier.BareIffJoined | go/pkg/db/barrier_predicate.go:154-158 | that grammar is the dot-joined lists of bare identifiers |
| Barrier.BareInCharacters | go/pkg/db/barrier_predicate.go:159-185 | the grammar in characters |
| Barrier.ValidateBarrierSpec | go/pkg/db/barrier_predicate.go:137-152 | accepts iff the kind is set and all four names are bare identifiers |
| TerminalProbe.NoOverlap | go/pkg/agentloop/terminal_probe.go:14-22 | no probe starts inside another occurrence |
| TerminalProbe.SamePosition | go/pkg/agentloop/terminal_probe.go:14-22 | no two probes occur at one position |
| TerminalProbe.IndexFrom | go/pkg/agentloop/terminal_probe.go:166-176 | the first occurrence at or after start, or none |
| TerminalProbe.ScanProbe | go/pkg/agentloop/terminal_probe.go:137-149 | every occurrence of one probe that ends in the new bytes |
| TerminalProbe.SortByPosition | go/pkg/agentloop/terminal_probe.go:150 | ascending, same elements |
| TerminalProbe.TerminalProbeReplies | go/pkg/agentloop/terminal_probe.go:129-156 | exactly the matches that end in the new bytes, in stream order |
| TerminalProbe.ChunkExtendsBatch | go/pkg/agentloop/terminal_probe.go:63-72 | one chunk adds what the whole stream would, for any tail of at least seven bytes |
| TerminalProbe.TailBound | go/pkg/agentloop/terminal_probe.go:158-164 | every cut is seamless iff the tail holds seven bytes |
| TerminalAnswers.PairsExactly | go/pkg/agentloop/terminal_probe.go:14-22 | which response answers which request |
| TerminalAnswers.StreamAnswered | go/pkg/agentloop/terminal_probe.go:129-156 | the responses to a stream answer its requests one for one, in the order in which they stand |
| TerminalProbe.SkipEscapeSequence | go/pkg/agentloop/terminal_probe.go:96-127 | the index past one escape sequence |
| TerminalProbe.CompactTerminalText | go/pkg/agentloop/terminal_probe.go:80-94 | the visible text; compacting it again changes nothing |
| TerminalProbe.CompactFixesExactlyPlain | go/pkg/agentloop/terminal_probe.go:80-94 | compaction fixes exactly the text of visible non-blank characters |
| TerminalAnswers.EscapeIsSkipped | go/pkg/agentloop/terminal_probe.go:96-127 | a whole escape sequence is passed over, whatever follows |
| TerminalAnswers.UnendedTakesAll | go/pkg/agentloop/terminal_probe.go:96-127 | one that does not end takes the rest of the text with it |
| TerminalAnswers.VisibleText | go/pkg/agentloop/terminal_probe.go:80-94 | byte by byte: an escape sequence leaves nothing, a visible byte stays, any other goes |
| TerminalProbe.ContainsCodexWorkspaceTrustPrompt | go/pkg/agentloop/terminal_probe.go:74-78 | whether the compacted window holds either phrase |
| TerminalProbe.ReplyState.ForChunk | go/pkg/agentloop/terminal_probe.go:63-72 | probe answers extend the batch answers of the stream so far; a carriage return follows them the first time a window shows the prompt |
| TerminalProbe.CopyPTYOutput | go/pkg/agentloop/terminal_probe.go:30-53 | for every cut into chunks: output copied, probe answers those of one pass, one trust answer iff the adapter is codex and some chunk after at most 8192 bytes of tail shows the prompt |
| Principals.OwnerIs | go/pkg/admin/principals.go:260-292 | the owner found is the one active link, in any row order |
| Principals.CreateKeepsLinks | go/pkg/admin/principals.go:167-200 | creation is idempotent, rewrites no principal and touches no link |
| Principals.CreateExactly | go/pkg/admin/principals.go:157-200 | refused for a blank field or an unknown kind, in conflict with a different principal of the id, and done otherwise |
| Principals.LinkKeepsValid | go/pkg/admin/principals.go:208-259 | linking gives the client this owner, no other client another, and keeps the keys and the unique active link |
| Principals.LinkExactly | go/pkg/admin/principals.go:208-259 | succeeds iff both ids are given, the principal is known and no other owns the client; a pair unlinked before is revived in its row; each error exactly |
| Principals.RelinkIsIdempotent | go/pkg/admin/principals.go:201-207 | the same pair again changes nothing; another principal is refused |
| Principals.UnlinkKeepsValid | go/pkg/admin/tokens.go:273-280 | unlinking leaves the client unattributed and every other client as it was |
| Principals.UnlinkExactly | go/pkg/admin/tokens.go:273-280 | the client's rows are closed, every other row stays as it is |
| Principals.AttributeKeepsValid | go/pkg/admin/principals.go:390-421 | attribution ends in the named principal and rewrites none |
| Principals.AttributeExactly | go/pkg/admin/principals.go:390-421 | when attribution succeeds, with or without creating the principal, and each of its errors |
| Principals.RotationMovesOwner | go/pkg/admin/tokens.go:240-270 | the new client gets the old one's principal or the named one, the old none, others unchanged |
| Principals.CarryExactly | go/pkg/admin/tokens.go:240-270 | without a named principal the move is never refused; with one it is refused exactly as the attribution is |
| Principals.RotationConservesCounts | go/pkg/admin/tokens.go:240-270 | without a named principal every active-client count is conserved |
| Principals.PrincipalStore.Create | go/pkg/admin/principals.go:167-200 | new directory or error of the specification |
| Principals.PrincipalStore.LinkPrincipal | go/pkg/admin/principals.go:208-259 | new directory or error of the specification |
| Principals.PrincipalStore.Unlink | go/pkg/admin/tokens.go:273-280 | every active link of the client is closed |
| Principals.PrincipalStore.AttributeClient | go/pkg/admin/principals.go:390-421 | new directory or error of the specification |
| Principals.PrincipalStore.Carry | go/pkg/admin/tokens.go:240-270 | new directory or error of the specification |
| Tokens.TokenExpiry | go/pkg/admin/tokens.go:452-491 | an accepted expiry lies in the future |
| TokenVerdicts.ExpiryAsAsked | go/pkg/admin/tokens.go:452-491 | a time or duration is taken as asked; otherwise an hour, or the replaced token's expiry where that comes first; each refusal |
| Tokens.KeyIdentifiesScope | go/pkg/admin/tokens.go:407-420 | two scopes share a deduplication key iff they are equal |
| Tokens.DedupeGrants | go/pkg/admin/tokens.go:407-420 | accepts iff no scope occurs twice |
| Tokens.CapGrants | go/pkg/admin/tokens.go:200-202 | every grant capped at the new expiry, in place |
| Tokens.TokenService.InsertTokenClient | go/pkg/admin/tokens.go:286-325 | one client row and one row per grant |
| Tokens.TokenService.RevokeTokenRows | go/pkg/admin/tokens.go:604-627 | closes every open grant, keeps an earlier revocation time |
| Tokens.TokenService.CreateToken | go/pkg/admin/tokens.go:42-85 | new tables or error of the specification; an error changes nothing |
| TokenVerdicts.CreateTokenExactly | go/pkg/admin/tokens.go:42-85 | creation succeeds iff expiry, scopes, repositories and attribution are accepted, with the first error otherwise, and the rows it leaves |
| TokenVerdicts.CreatedAuthority | go/pkg/rpc/auth_pg.go:86-146 | a new token passes exactly the checks its request asked for, until it expires |
| Tokens.TokenService.RevokeToken | go/pkg/admin/tokens.go:106-147 | new tables or error of the specification; refused iff the token is unknown or another secret is presented |
| TokenVerdicts.RevokeExactly | go/pkg/admin/tokens.go:106-147 | revocation succeeds iff the token exists and no other secret is presented, and closes its row and its open grants, each at the first time |
| Tokens.TokenService.RotateToken | go/pkg/admin/tokens.go:149-232 | new tables or error of the specification; an error changes nothing; an unknown token or another secret is refused |
| TokenVerdicts.RotationRefusedExactly | go/pkg/admin/tokens.go:168-194 | each refusal in order: target, revoked, expired, ambiguous, nothing active, expiry |
| TokenVerdicts.RotationHandsOn | go/pkg/admin/tokens.go:195-222 | the old token closed, and one new client with one open grant for each open one of the old, at the sooner expiry |
| TokenVerdicts.RotateExactly | go/pkg/admin/tokens.go:149-232 | in reachable states nothing else refuses a rotation than those errors and the attribution it names |
| TokenVerdicts.WrongTargetChangesNothing | go/pkg/admin/tokens.go:128-130 | over every run an unknown token or a wrong secret leaves every table as it was |
| TokenVerdicts.PresentedTargetIsClosed | go/pkg/admin/tokens.go:119-139 | over every run a revocation of a presented token closes it |
| TokenAuthority.RunKeepsInv | go/pkg/admin/tokens.go:149-232 | over every run no client has two open grants of one scope, grants expire with or before their client, a revoked client has none open, a client has one principal at most |
| TokenAuthority.SuccessorAuthority | go/pkg/rpc/auth_pg.go:86-146 | the new token's authority at any instant in terms of the old token's grants |
| TokenAuthority.AnswersAgree | go/pkg/rpc/auth_pg.go:105-146 | where no client has two open grants of one scope the row the request check happens to read does not matter |
| TokenAuthority.RotationGrowsIff | go/pkg/admin/tokens.go:149-232 | whatever the successor may pass the old token would have passed, whichever rows are read, iff no active grant outlives the client or has an expired duplicate and no active global grant is hidden |
| TokenAuthority.ExpiredDuplicateGrows | go/pkg/admin/tokens.go:629-644 | an expired and an active grant of one scope pass the ambiguity check: the old token may be denied, the new one passes |
| TokenAuthority.RotationIsExact | go/pkg/admin/tokens.go:149-232 | in reachable states the successor has exactly the old authority, cut off at the new expiry, for some answer and for every answer |
| TokenAuthority.RevokedHasNothing | go/pkg/admin/tokens.go:604-627 | after a revocation or rotation the old client has no open grant |
| TokenAuthority.RotationKeepsPrincipal | go/pkg/admin/tokens.go:240-270 | in reachable states rotation moves the attribution and conserves the counts |
| TokenAuthority.AuthorityOnlyShrinks | go/pkg/rpc/auth_pg.go:86-146 | over any later run a token never gains authority, loses it only by revocation, and for good |
| ScopeCheck.CleanIsWalk | go/cmd/striatum/scope_check.go:388 | cleaning a path is walking it, until the walk leaves the root |
| ScopeCheck.NormalizedIsWalk | go/cmd/striatum/scope_check.go:380-397 | accepted iff relative, without `../`, and walking stays inside; the result names where the walk ends |
| ScopeCheck.NormalForm | go/cmd/striatum/scope_check.go:377-379 | an accepted path is `.` or slash-joined segments, none empty, `.` or `..` |
| ScopeCheck.IdempotentIffTrimmed | go/cmd/striatum/scope_check.go:380-397 | normalising again changes nothing iff the result has no outer white space |
| ScopeCheck.ScopePathMatchesAny | go/cmd/striatum/scope_check.go:401-408 | whether some matcher passes the string test |
| ScopeCheck.UnderIffAncestor | go/cmd/striatum/scope_check.go:399-408 | on normal forms the string test is segment prefix |
| ScopeCheck.NormalizeScopeList | go/cmd/striatum/scope_check.go:362-375 | exactly the normal forms of the accepted entries, each once |
| ScopeCheck.ClassifyScopeViolations | go/cmd/striatum/scope_check.go:339-358 | in order, exactly the invalid paths, those under a forbidden ancestor, and those outside a non-empty accepted list |
| ScopeCheck.ViolationExactly | go/cmd/striatum/scope_check.go:339-358 | in the places paths name: invalid iff none, forbidden iff a forbidden path names it or one above, outside iff some allowed path names a place and none this one or one above |
| ScopeCheck.ReportedInOrder | go/cmd/striatum/scope_check.go:339-358 | the report goes path by path, in order |
| GitExclude.ExcludeSettings | go/pkg/agentloop/mcpconfig.go:371-393 | the content after excluding, as the laws below describe it |
| GitExclude.ExcludedContent | go/pkg/agentloop/mcpconfig.go:371-393 | a content that hides the settings stays; any other gains the one line of text |
| GitExclude.HiddenAfterIff | go/pkg/agentloop/mcpconfig.go:365-370 | afterwards the file hides the settings iff it did before or its last line was blank |
| GitExclude.ExcludeTwiceIff | go/pkg/agentloop/mcpconfig.go:365-370 | excluding twice is excluding once on exactly those files; the second time always hides |
| GitExclude.UnexcludeSettings | go/pkg/agentloop/mcpconfig.go:399-422 | the content after removing the marker lines |
| GitExclude.KeptByLine | go/pkg/agentloop/mcpconfig.go:409-417 | line by line and in order, a line is dropped iff it holds the marker |
| GitExclude.AddedThenRemoved | go/pkg/agentloop/mcpconfig.go:371-422 | what is left when a line was added: all but the unterminated last line and the marker lines |
| GitExclude.RestoresIff | go/pkg/agentloop/mcpconfig.go:395-398 | the content is restored iff it had no marker line and was excluded already, empty or newline-terminated |
| GitExclude.MissingFileBecomesEmpty | go/pkg/agentloop/mcpconfig.go:371-422 | where there was no file an empty one is left |
| CollaborationLedger.DialogueRefIff | go/pkg/artifactcontracts/collaboration_ledger.go:601-615 | what follows `dialogue:` is a decimal number |
| CollaborationLedger.ValidateEntries | go/pkg/artifactcontracts/collaboration_ledger.go:9-56 | accepts iff every entry is by a participant, cites dialogue turns and is judged only as a challenge; the tallies count them |
| CollaborationLedger.ValidateSecondAdjudicatorGate | go/pkg/artifactcontracts/collaboration_ledger.go:112-140 | in second-adjudicator mode accepts iff two distinct adjudicators are named |
| CollaborationLedger.ValidateFindings | go/pkg/artifactcontracts/collaboration_ledger.go:142-206 | accepts iff every finding is well-formed and ids are unique; the map is the findings by id |
| CollaborationLedger.ValidateConstraints | go/pkg/artifactcontracts/collaboration_ledger.go:208-288 | accepts iff every constraint is well-formed and every binding one rests on a severe finding and a verification signal |
| CollaborationLedger.ProductiveConstraintRows | go/pkg/artifactcontracts/collaboration_ledger.go:498-507 | positive iff some row binds or is an unresolved question |
| CollaborationLedger.ValidateCollaborationLedger | go/pkg/artifactcontracts/collaboration_ledger.go:9-110 | accepts exactly the ledgers of the declarative definition |
| CollaborationLedger.ClearingShows | go/pkg/artifactcontracts/collaboration_ledger.go:58-110 | what a valid ledger that clears shows: claim, challenge, rebuttal, no unrebutted challenge, two adjudicators where asked |
| CollaborationLedger.BindingShows | go/pkg/artifactcontracts/collaboration_ledger.go:208-288 | what a valid ledger shows for a binding constraint: a severe finding and a verification signal |
| CollaborationLedger.BindingConstraintsFromLedger | go/pkg/artifactcontracts/collaboration_ledger.go:433-462 | the binding constraints in order, final review required unless switched off |
| CollaborationLedger.BindingMembers | go/pkg/artifactcontracts/collaboration_ledger.go:433-462 | what is extracted is exactly the binding rows with an id |
| CollaborationLedger.BindingInOrder | go/pkg/artifactcontracts/collaboration_ledger.go:433-462 | row by row and in order |
| CollaborationLedger.ParseConstraintDischarge | go/pkg/artifactcontracts/collaboration_ledger.go:331-422 | accepts iff rows are well-formed, ids unique, and accepted risks name owner and stage |
| CollaborationLedger.EnforceConstraintDischarge | go/pkg/mutations/collaboration_ledger.go:187-230 | reports exactly the final-review constraints without a settling row |
| CollaborationLedger.GatePassesIff | go/pkg/mutations/collaboration_ledger.go:150-170 | the gate passes iff every binding final-review constraint is settled; each rests on exactly one severe finding |
| CollaborationLedger.OwnRowIff | go/pkg/mutations/collaboration_ledger.go:187-230 | over valid ledgers the gate demands, whatever table is submitted, a row for every binding final-review constraint iff no two share an id, which nothing checks |
| CollaborationLedger.OneRowSettlesTwo | go/pkg/artifactcontracts/collaboration_ledger.go:208-288 | a valid ledger with two binding constraints of one id on which a single row passes the gate |
| BucketName.PatternIff | go/pkg/blob/keys.go:34-40 | the pattern accepts exactly single-hyphenated names without outer hyphens |
| BucketName.NameIff | go/pkg/blob/keys.go:34-62 | an accepted name in characters and length |
| BucketName.SanitizeForBucket | go/pkg/blob/keys.go:79-98 | the sanitised text, empty or matching the pattern |
| BucketName.SanitizedFixesExactly | go/pkg/blob/keys.go:79-98 | fixes exactly empty and pattern texts; idempotent |
| BucketName.SanitizedIsWords | go/pkg/blob/keys.go:79-98 | the stretches of lower-case letters and digits, joined by single hyphens |
| BucketName.PrefixedNameIsValid | go/pkg/blob/keys.go:64-77 | any prefix that is a name and a hyphen gives an accepted name for every repository id |
| BucketName.DefaultNameIsValid | go/pkg/blob/keys.go:64-77 | so does the default prefix |
| BucketName.DefaultNameIs | go/pkg/blob/keys.go:64-77 | the default name spelled out: prefix, those words or `repo`, cut to sixty-three characters |
| BucketName.PrefixIsValidIff | go/pkg/blob/keys.go:64-77 | the exact condition on a prefix under which every repository id gets an accepted name |

## Left out

- The owner-ddl apply route (`go/pkg/db/owner.go:426-542`), role rotation and the re-assertion of revokes: they write outside the deploy protocol.
- SQL text, preflight analysis of it, advisory locks, connection pools: SQL is identified by its content hash, a failing write is a crash point, and a failing read other than that of the runtime watermark is one too.
- DeployEngine.Deployer.EnsureDeploySubstrate: `schema_meta`, which it also creates if absent, has no table of its own in the model; the watermark reads 0 without it.
- DeployPlan.BuildPlan: the staged-file fallback for the revoke is not modelled; it is reachable only when the bundle it looks for is already found.
- DeployDatabase.Runner.CommitStep: the owner watermark row's label, the timestamps and the daemon version are not modelled.
- DeployInterleaving.InterleavingOnceIff: finalizers and aborts are not among the interleaved transactions; they execute no file. Boots and processes of other binaries are not interleaved.
- The doctor's own read of the watermark (`go/pkg/reads/doctor.go:31`), which only reports it.
- Plan JSON round trips, plan and receipt timestamps, error texts.
- AuditChain.SameHeadSameChain: v2 JSON is a function that separates the rows at hand; Go's marshaller replaces invalid UTF-8, which PostgreSQL text never holds.
- AuditAppend.AuditStore.AppendAuditRow: choosing or opening the segment is an input; the daemon-authority assertion of the v3 path is not modelled.
- Events and repository chains beside the audit chain.
- Barrier.ReadyExactly: gap flags, seals and keys are never NULL, as their columns declare.
- Barrier.FanInIsExact: the query texts that derive seats, attempts and admitted gaps are represented by the rows they select.
- TerminalProbe.CopyPTYOutput: whether the trust prompt is recognised depends on how chunks cut an escape sequence; the answer is characterised by the chunks, not by the stream.
- Tokens.TokenService.CreateToken: client kind, display name, token text and parameter parsing; ids are fresh inputs and a secret is compared as a value. Session-bound grants are not modelled.
- Principals.PrincipalStore.Create: disabled principals and the listing of scopes are not modelled.
- ScopeCheck.NormalizeScopeList: the final sort of the matchers, which no later step depends on; reading `git status` output.
- BucketName.DefaultNameIsValid: lower-casing of the repository id is an input.
- CollaborationLedger.ValidateCollaborationLedger: YAML values, unknown-key and type checks and the structural gate on entries are taken as done: front matter arrives as typed values.
- CollaborationLedger.EnforceConstraintDischarge: which published ledger counts as the latest cleared one is read from the database and is an input.
- CLI parsing, servers, processes, systemd, S3 clients and the adapter tables.
