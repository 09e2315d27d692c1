/**
  What one invocation of `Deployer.Apply` (run, resume, abort or dry-run a deploy) does to the
  database and reports, as functions of the state before it.
 */
module DeployApply {
  import opened Wrappers
  import opened DeployPlan
  import opened DeployDatabase

  datatype DeployError =
    | BinaryMismatch(index: nat)
    | StampMismatch(index: nat)
    | TranscriptMissing(index: nat)
    | NotEmbedded(index: nat)
    | SubstrateMissing
    | Crashed

  datatype ReportedState = ReportedNone | ReportedComplete | ReportedAborted

  datatype Outcome =
    | Deployed(plan: PlanHash, state: ReportedState, applied: seq<nat>, resumed: bool, total: nat, dryRun: bool)
    | Halted(error: DeployError)

  datatype Options = Options(dryRun: bool, abort: bool)

  // ---------------------------------------------------------------- lookups in the binary

  ghost function Find(files: seq<SqlFile>, id: FileName): Option<SqlFile> {
    if files == [] then None
    else if files[0].name == id then Some(files[0])
    else Find(files[1..], id)
  }

  // stepRecord and binaryStepSHA share this lookup: runtime steps among the migrations, owner
  // steps among the bundles and then in the staged directory.
  ghost function Resolve(b: Binary, role: Role, id: FileName): Option<SqlFile> {
    match role
    case Runtime => Find(b.migrations, id)
    case Owner =>
      if Find(b.bundles, id).Some? then Find(b.bundles, id)
      else if b.staged.Some? && b.staged.value.name == id then b.staged
      else None
  }

  ghost predicate StepMatches(b: Binary, s: Step) {
    Resolve(b, s.role, s.id).Some? && Resolve(b, s.role, s.id).value.sha == s.sha
  }

  // The M1 byte check: the first stored step whose hash differs from the embedded bytes.
  ghost function TranscriptError(b: Binary, steps: seq<Step>): Option<DeployError> {
    if steps == [] then None
    else if !StepMatches(b, steps[0]) then Some(BinaryMismatch(steps[0].index))
    else TranscriptError(b, steps[1..])
  }

  ghost function StampOf(db: Db, s: Step): string {
    var stamps := if s.role.Runtime? then db.migrations else db.bundles;
    if s.id.version in stamps then stamps[s.id.version] else ""
  }

  // The M1 stamp check over the steps below `through`; an absent stamp is a mismatch.
  ghost function StampError(db: Db, steps: seq<Step>, through: nat): Option<DeployError> {
    if steps == [] then None
    else if steps[0].index < through && (StampOf(db, steps[0]) == "" || StampOf(db, steps[0]) != steps[0].sha) then
      Some(StampMismatch(steps[0].index))
    else StampError(db, steps[1..], through)
  }

  // ---------------------------------------------------------------- one invocation

  // LoadDeployCursor: an absent or idle row is no deploy, and the step id is not read back.
  ghost function LoadCursor(db: Db): Option<CursorRow> {
    if db.cursor.None? || db.cursor.value.state.Idle? then None
    else Some(db.cursor.value.(stepId := None))
  }

  ghost predicate InFlight(db: Db) {
    db.cursor.Some? && db.cursor.value.state in {InProgress, StepCommitted, Finalizing}
  }

  // No deploy to continue: the next one builds a fresh plan.
  ghost predicate Startable(db: Db) {
    LoadCursor(db).None? || db.cursor.value.state.Aborted?
  }

  ghost predicate Completed(db: Db) {
    db.cursor.Some? && db.cursor.value.state.Complete?
  }

  function CommittedThrough(c: CursorRow): nat {
    if c.state.StepCommitted? then c.stepIndex + 1 else c.stepIndex
  }

  function LastStepIndex(plan: Plan): nat {
    if plan.steps == [] then 0 else plan.steps[|plan.steps| - 1].index
  }

  function LastStepId(plan: Plan): Option<FileName> {
    if plan.steps == [] then None else Some(plan.steps[|plan.steps| - 1].id)
  }

  ghost function RecordFingerprint(w: World, f: Fingerprint): Option<World> {
    if w.db.schemaState.NoTable? then Some(w)
    else if w.credit == 0 then None
    else Some(World(WithFingerprint(w.db, f), w.credit - 1))
  }

  ghost function WriteCursor(w: World, plan: Plan, state: CursorState): Option<World> {
    if w.credit == 0 then None
    else Some(World(WithCursor(w.db, plan.hash, state, LastStepIndex(plan), LastStepId(plan)), w.credit - 1))
  }

  // finalizing, then the fingerprint, then complete, each its own transaction.
  ghost function Finalize(w: World, b: Binary, plan: Plan): (World, Option<DeployError>) {
    if TranscriptError(b, plan.steps).Some? then (w, TranscriptError(b, plan.steps))
    else match WriteCursor(w, plan, Finalizing)
      case None => (w, Some(Crashed))
      case Some(w1) =>
        match RecordFingerprint(w1, ExpectedFingerprint(b))
        case None => (w1, Some(Crashed))
        case Some(w2) =>
          match WriteCursor(w2, plan, Complete)
          case None => (w2, Some(Crashed))
          case Some(w3) => (w3, None)
  }

  ghost function Finished(r: (World, Option<DeployError>), plan: Plan, applied: seq<nat>, resumed: bool): (World, Outcome) {
    (r.0, if r.1.Some? then Halted(r.1.value) else Deployed(plan.hash, ReportedComplete, applied, resumed, |plan.steps|, false))
  }

  ghost function RunFrom(w: World, b: Binary, plan: Plan, next: nat, prev: Digest, applied: seq<nat>, resumed: bool): (World, Outcome)
    decreases |plan.steps| - next
  {
    if next >= |plan.steps| then Finished(Finalize(w, b, plan), plan, applied, resumed)
    else
      var step := plan.steps[next];
      var file := Resolve(b, step.role, step.id);
      if file.None? then (w, Halted(NotEmbedded(step.index)))
      else if w.credit == 0 then (w, Halted(Crashed))
      else
        RunFrom(World(StepDone(w.db, plan.hash, step, file.value, prev), w.credit - 1), b, plan, next + 1,
                LinkOf(prev, plan.hash, step), applied + [step.index], resumed)
  }

  ghost function LastReceipt(db: Db, plan: PlanHash, before: nat): Digest {
    if before == 0 || (plan, before - 1) !in db.receipts then NoDigest else db.receipts[(plan, before - 1)].row
  }

  ghost function FreshPlan(db: Db, b: Binary): Plan {
    PlanOf(b, MaxVersion(db.bundles.Keys), db.substrate)
  }

  // The plan built on the runtime watermark as read.
  ghost function PlanAsRead(db: Db, b: Binary, readFails: bool): Plan {
    PlanOf(b, MaxVersion(db.bundles.Keys), ReadVersion(db.substrate, readFails))
  }

  ghost function MaterializeAndRun(w: World, b: Binary, o: Options, readFails: bool): (World, Outcome) {
    var plan := PlanAsRead(w.db, b, readFails);
    if o.dryRun then (w, Deployed(plan.hash, ReportedNone, [], false, |plan.steps|, true))
    else if w.credit == 0 then (w, Halted(Crashed))
    else
      var w1 := World(Materialized(w.db, plan), w.credit - 1);
      RunFrom(w1, b, plan, 0, NoDigest, [], false)
  }

  ghost function Resume(w: World, b: Binary, o: Options, c: CursorRow): (World, Outcome) {
    if c.plan !in w.db.plans then (w, Halted(TranscriptMissing(c.stepIndex)))
    else
      var stored := w.db.plans[c.plan];
      if o.abort then
        if w.credit == 0 then (w, Halted(Crashed))
        else (World(WithCursor(w.db, c.plan, Aborted, c.stepIndex, c.stepId), w.credit - 1),
              Deployed(c.plan, ReportedAborted, [], true, |stored.steps|, false))
      else if TranscriptError(b, stored.steps).Some? then (w, Halted(TranscriptError(b, stored.steps).value))
      else if StampError(w.db, stored.steps, CommittedThrough(c)).Some? then
        (w, Halted(StampError(w.db, stored.steps, CommittedThrough(c)).value))
      else if c.state.Finalizing? then Finished(Finalize(w, b, stored), stored, [], true)
      else RunFrom(w, b, stored, CommittedThrough(c), LastReceipt(w.db, stored.hash, CommittedThrough(c)), [], true)
  }

  ghost function NoOp(w: World, b: Binary, o: Options, c: CursorRow): (World, Outcome) {
    if c.plan !in w.db.plans then (w, Deployed(c.plan, ReportedComplete, [], false, 0, o.dryRun))
    else
      var stored := w.db.plans[c.plan];
      if TranscriptError(b, stored.steps).Some? then (w, Halted(TranscriptError(b, stored.steps).value))
      else (w, Deployed(c.plan, ReportedComplete, [], false, |stored.steps|, o.dryRun))
  }

  // The cursor dispatch, once the deploy tables exist.
  ghost function Dispatch(w: World, b: Binary, o: Options, readFails: bool := false): (World, Outcome) {
    match LoadCursor(w.db)
    case None => MaterializeAndRun(w, b, o, readFails)
    case Some(c) =>
      if c.state.Complete? then NoOp(w, b, o, c)
      else if c.state.Aborted? then MaterializeAndRun(w, b, o, readFails)
      else Resume(w, b, o, c)
  }

  // The body of migration 44, read from the embedded file set by its name.
  ghost function SubstrateFile(b: Binary): Option<SqlFile> {
    Find(b.migrations, SUBSTRATE_FILE)
  }

  ghost predicate HasSubstrate(b: Binary) {
    SubstrateFile(b).Some?
  }

  ghost function Prepared(db: Db, b: Binary): Db
    requires HasSubstrate(b)
  {
    WithDeployTables(db, SubstrateFile(b).value)
  }

  // Every invocation, whatever its flags and the cursor, first executes the body of migration 44.
  ghost function Apply(w: World, b: Binary, o: Options, readFails: bool := false): (World, Outcome) {
    if !HasSubstrate(b) then (w, Halted(SubstrateMissing))
    else if w.credit == 0 then (w, Halted(Crashed))
    else Dispatch(World(Prepared(w.db, b), w.credit - 1), b, o, readFails)
  }
}
