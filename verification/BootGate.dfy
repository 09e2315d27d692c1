/**
  The boot path: the owner-bundle watermark interlock, the deploy activation gate, and
  ConnectAndMigrate, which composes them with ApplyMigrations, the drift check and the self-record.
 */
module BootGate {
  import opened Wrappers
  import opened DeployPlan
  import opened DeployDatabase
  import opened DeployApply
  import opened Migrations

  datatype Decision = ServeLegacy | ServeVerify | HaltAwaitingDeploy | HaltAwaitingConfig

  // DeployActivationInputs; None is the synthesized state of an absent or idle cursor.
  datatype Inputs = Inputs(
    cursor: Option<CursorState>,
    decoupled: bool,
    revokeEmbedded: bool,
    fingerprintInSync: bool,
    planHashMatch: bool)

  function Decide(i: Inputs): Decision {
    if i.revokeEmbedded && !i.decoupled then HaltAwaitingConfig
    else match i.cursor
      case Some(Complete) =>
        var inSync := i.fingerprintInSync && i.planHashMatch;
        if i.decoupled then if inSync then ServeVerify else HaltAwaitingDeploy
        else if inSync then ServeLegacy else HaltAwaitingDeploy
      case Some(InProgress) => HaltAwaitingDeploy
      case Some(StepCommitted) => HaltAwaitingDeploy
      case Some(Finalizing) => HaltAwaitingDeploy
      case Some(Aborted) => HaltAwaitingDeploy
      case _ => if i.decoupled then HaltAwaitingDeploy else ServeLegacy
  }

  ghost predicate FingerprintInSync(db: Db, b: Binary) {
    db.schemaState == Recorded(ExpectedFingerprint(b))
  }

  ghost predicate TargetsThisFrontier(db: Db, b: Binary, plan: PlanHash) {
    plan in db.plans && db.plans[plan].targetRuntime == b.latest && db.plans[plan].targetOwner == b.latestOwner
  }

  // The fingerprint and plan reads happen only for a complete cursor.
  ghost function InputsOf(db: Db, b: Binary, decoupled: bool): Inputs {
    match LoadCursor(db)
    case None => Inputs(None, decoupled, RevokeEmbedded(b), false, false)
    case Some(c) =>
      if c.state.Complete? then
        Inputs(Some(Complete), decoupled, RevokeEmbedded(b), FingerprintInSync(db, b), TargetsThisFrontier(db, b, c.plan))
      else Inputs(Some(c.state), decoupled, RevokeEmbedded(b), false, false)
  }

  ghost function Activation(db: Db, b: Binary, decoupled: bool): Decision {
    Decide(InputsOf(db, b, decoupled))
  }

  datatype BootOutcome =
    | Served(version: nat)
    | AwaitingOwnerDdl(applied: nat)
    | AwaitingDeploy
    | AwaitingDeployConfig
    | RevokeAlreadyApplied
    | MigrateFailed(error: MigrateError)
    | SchemaDrift
    | BootCrashed

  ghost predicate OwnerShortfall(db: Db, b: Binary) {
    0 < MaxVersion(db.bundles.Keys) < b.latestOwner
  }

  ghost predicate Drifted(db: Db, b: Binary) {
    db.schemaState.Recorded? && db.schemaState.fingerprint != ExpectedFingerprint(b)
  }

  ghost function LegacyServe(w: World, b: Binary, refuseDrift: bool, readFails: bool): (World, BootOutcome) {
    var (w1, r) := ApplyMigrations(w, b, readFails);
    if r.Err? then (w1, MigrateFailed(r.error))
    else if Drifted(w1.db, b) && refuseDrift then (w1, SchemaDrift)
    else match RecordFingerprint(w1, ExpectedFingerprint(b))
      case None => (w1, BootCrashed)
      case Some(w2) => (w2, Served(r.value))
  }

  ghost function Boot(w: World, b: Binary, decoupled: bool, refuseDrift: bool, readFails: bool := false): (World, BootOutcome) {
    if OwnerShortfall(w.db, b) then (w, AwaitingOwnerDdl(MaxVersion(w.db.bundles.Keys)))
    else if !RevokeEmbedded(b) && DDL_REVOKE_VERSION in w.db.bundles then (w, RevokeAlreadyApplied)
    else match Activation(w.db, b, decoupled)
      case ServeVerify => (w, Served(ReadVersion(w.db.substrate, readFails)))
      case ServeLegacy => LegacyServe(w, b, refuseDrift, readFails)
      case HaltAwaitingDeploy => (w, AwaitingDeploy)
      case HaltAwaitingConfig => (w, AwaitingDeployConfig)
  }

  // ---------------------------------------------------------------- the boot sequence

  method RevokeBundleEmbedded(b: Binary) returns (r: bool)
    ensures r == RevokeEmbedded(b)
  {
    for i := 0 to |b.bundles|
      invariant forall j :: 0 <= j < i ==> b.bundles[j].name.version != DDL_REVOKE_VERSION
    {
      if b.bundles[i].name.version == DDL_REVOKE_VERSION {
        return true;
      }
    }
    return false;
  }

  method CheckDeployActivation(runner: Runner, b: Binary, revokeEmbedded: bool, decoupled: bool) returns (d: Decision)
    requires ValidBinary(b) && revokeEmbedded == RevokeEmbedded(b)
    ensures d == Activation(runner.Value(), b, decoupled)
  {
    if runner.cursor.None? || runner.cursor.value.state.Idle? {
      return Decide(Inputs(None, decoupled, revokeEmbedded, false, false));
    }
    var c := runner.cursor.value;
    var fingerprintInSync, planHashMatch := false, false;
    if c.state.Complete? {
      fingerprintInSync := runner.schemaState == Recorded(ExpectedFingerprint(b));
      if c.plan in runner.plans {
        var stored := runner.plans[c.plan];
        var maxOwner := MaxEmbeddedOwnerVersion(b.bundles);
        LatestOwnerIsMax(b, maxOwner);
        planHashMatch := stored.targetRuntime == b.latest && stored.targetOwner == maxOwner;
      }
    }
    return Decide(Inputs(Some(c.state), decoupled, revokeEmbedded, fingerprintInSync, planHashMatch));
  }

  method ConnectAndMigrate(runner: Runner, b: Binary, decoupled: bool, refuseDrift: bool) returns (r: BootOutcome)
    requires ValidBinary(b)
    modifies runner
    ensures (runner.State(), r) == Boot(old(runner.State()), b, decoupled, refuseDrift, runner.readFails)
  {
    hide Activation, ApplyMigrations, ExpectedFingerprint, RevokeEmbedded, ValidBinary, MaxVersion, WithFingerprint;
    var applied := runner.OwnerBundleVersion();
    if applied != 0 && applied < b.latestOwner {
      return AwaitingOwnerDdl(applied);
    }
    var revokeEmbedded := RevokeBundleEmbedded(b);
    var decision := CheckDeployActivation(runner, b, revokeEmbedded, decoupled);
    if !revokeEmbedded && DDL_REVOKE_VERSION in runner.bundles {
      return RevokeAlreadyApplied;
    }
    match decision {
      case ServeVerify =>
        var v := runner.ReadSchemaVersion();
        return Served(v);
      case HaltAwaitingDeploy => return AwaitingDeploy;
      case HaltAwaitingConfig => return AwaitingDeployConfig;
      case ServeLegacy =>
    }
    var version := Migrate(runner, b);
    if version.Err? {
      return MigrateFailed(version.error);
    }
    var expected := ExpectedFingerprint(b);
    if runner.schemaState.Recorded? && runner.schemaState.fingerprint != expected && refuseDrift {
      return SchemaDrift;
    }
    var ok := runner.RecordFingerprint(expected);
    if !ok {
      return BootCrashed;
    }
    return Served(version.value);
  }

  // ---------------------------------------------------------------- the gate, case by case

  // The gate serves exactly on a synchronised complete cursor, or with no cursor at all on the
  // legacy path; in particular never while a deploy is in flight or aborted.
  lemma GateServesExactlyWhen(db: Db, b: Binary, decoupled: bool)
    ensures Activation(db, b, decoupled).ServeVerify? <==>
      decoupled && db.cursor.Some? && db.cursor.value.state.Complete?
      && FingerprintInSync(db, b) && TargetsThisFrontier(db, b, db.cursor.value.plan)
    ensures Activation(db, b, decoupled).ServeLegacy? <==>
      !decoupled && !RevokeEmbedded(b)
      && (LoadCursor(db).None?
          || (db.cursor.value.state.Complete? && FingerprintInSync(db, b) && TargetsThisFrontier(db, b, db.cursor.value.plan)))
    ensures InFlight(db) || (db.cursor.Some? && db.cursor.value.state.Aborted?) ==>
      Activation(db, b, decoupled) == if RevokeEmbedded(b) && !decoupled then HaltAwaitingConfig else HaltAwaitingDeploy
  {
  }

  // A boot that does not serve, and did not reach ApplyMigrations, leaves the database untouched;
  // the verify-only boot never writes.
  lemma RefusedBootWritesNothing(w: World, b: Binary, decoupled: bool, refuseDrift: bool, readFails: bool)
    ensures !Activation(w.db, b, decoupled).ServeLegacy? ==> Boot(w, b, decoupled, refuseDrift, readFails).0 == w
    ensures decoupled ==> Boot(w, b, decoupled, refuseDrift, readFails).0 == w
  {
    GateServesExactlyWhen(w.db, b, decoupled);
  }
}
